/**
 Properties of the star-field navigator: what reaching a star does to the
 scene and to the star's planets, where the displayed planets lie, that every
 transition finishes after a fixed number of frames with the promised flags
 and pose, that no handler checks the focus flag, and that the scene stays
 consistent with the stars' planet lists through every operation.
 */
module NavigationFacts {
  import opened Wrappers
  import opened Geometry
  import opened SceneGraph
  import opened Navigation

  // ---------------------------------------------------------------------------
  // Displaying planets: scene effects
  // ---------------------------------------------------------------------------

  /** The ids `base`, ..., `base + n - 1` the counter hands out next. */
  function FreshIds(base: Id, n: nat): (ids: set<Id>)
    ensures forall k :: k in ids <==> base <= k < base + n
    decreases n
  {
    if n == 0 then {} else {base} + FreshIds(base + 1, n - 1)
  }

  /** The removals `RemoveAll` logs, one per planet, in order. */
  function RemovedEvents(ps: seq<NavPlanet>): (r: seq<SceneEvent>)
    ensures |r| == |ps| && forall j | 0 <= j < |ps| :: r[j] == Removed(ps[j].id)
  {
    if ps == [] then [] else [Removed(ps[0].id)] + RemovedEvents(ps[1..])
  }

  /** The additions of `n` consecutive ids from `base`, in order. */
  function AddedEvents(base: Id, n: nat): (r: seq<SceneEvent>)
    ensures |r| == n && forall j | 0 <= j < n :: r[j] == Added(base + j)
    decreases n
  {
    if n == 0 then [] else [Added(base)] + AddedEvents(base + 1, n - 1)
  }

  lemma IdsCons(ps: seq<NavPlanet>)
    requires ps != []
    ensures Ids(ps) == {ps[0].id} + Ids(ps[1..])
  {
    assert forall p | p in ps :: p == ps[0] || p in ps[1..];
  }

  lemma {:induction false} RemoveAllMembers(s: Scene, ps: seq<NavPlanet>)
    ensures RemoveAll(s, ps).members == s.members - Ids(ps)
    decreases |ps|
  {
    if ps != [] {
      RemoveAllMembers(Remove(s, ps[0].id), ps[1..]);
      IdsCons(ps);
    }
  }

  lemma {:induction false} RemoveAllLog(s: Scene, ps: seq<NavPlanet>)
    ensures RemoveAll(s, ps).log == s.log + RemovedEvents(ps)
    ensures RemoveAll(s, ps).nextId == s.nextId
    decreases |ps|
  {
    if ps != [] {
      var s1 := Remove(s, ps[0].id);
      RemoveAllLog(s1, ps[1..]);
      assert s1.log + RemovedEvents(ps[1..]) == s.log + ([Removed(ps[0].id)] + RemovedEvents(ps[1..]));
    }
  }

  /** Removing the previous planets takes exactly their ids out of the scene and logs one removal each. */
  lemma RemoveAllEffect(s: Scene, ps: seq<NavPlanet>)
    ensures RemoveAll(s, ps).members == s.members - Ids(ps)
    ensures RemoveAll(s, ps).log == s.log + RemovedEvents(ps)
    ensures RemoveAll(s, ps).nextId == s.nextId
  {
    RemoveAllMembers(s, ps);
    RemoveAllLog(s, ps);
  }

  lemma AddedEventsCons(base: Id, n: nat)
    requires n > 0
    ensures AddedEvents(base, n) == [Added(base)] + AddedEvents(base + 1, n - 1)
  {
  }

  lemma AppendAssoc<T>(a: seq<T>, b: seq<T>, c: seq<T>)
    ensures a + (b + c) == (a + b) + c
  {
  }

  /** The list half of one step of the creation loop: planet `i` under the next id, then the rest from a scene that has it. */
  lemma CreatePlanetsStep(s: Scene, i: nat, make: (nat, Id) -> NavPlanet)
    requires i < PlanetsPerStar
    ensures var sa := Scene(s.members + {s.nextId}, s.log + [Added(s.nextId)], s.nextId + 1);
      CreatePlanets(s, i, make).1 == [make(i, s.nextId)] + CreatePlanets(sa, i + 1, make).1
  {
  }

  /** The scene half of one step of the creation loop. */
  lemma CreatePlanetsSceneStep(s: Scene, i: nat, make: (nat, Id) -> NavPlanet)
    requires i < PlanetsPerStar
    ensures var sa := Scene(s.members + {s.nextId}, s.log + [Added(s.nextId)], s.nextId + 1);
      CreatePlanets(s, i, make).0 == CreatePlanets(sa, i + 1, make).0
  {
  }

  /** Creating planets `i` to 4 makes them in order, planet `i + j` on the `j`-th next id. */
  lemma {:induction false} CreatePlanetsList(s: Scene, i: nat, make: (nat, Id) -> NavPlanet)
    requires i <= PlanetsPerStar
    ensures |CreatePlanets(s, i, make).1| == PlanetsPerStar - i
    ensures forall j | 0 <= j < PlanetsPerStar - i :: CreatePlanets(s, i, make).1[j] == make(i + j, s.nextId + j)
    decreases PlanetsPerStar - i
  {
    if i < PlanetsPerStar {
      var sa := Scene(s.members + {s.nextId}, s.log + [Added(s.nextId)], s.nextId + 1);
      CreatePlanetsStep(s, i, make);
      CreatePlanetsList(sa, i + 1, make);
      var ps := CreatePlanets(s, i, make).1;
      var rest := CreatePlanets(sa, i + 1, make).1;
      forall j | 0 < j < PlanetsPerStar - i
        ensures ps[j] == make(i + j, s.nextId + j)
      {
        assert ps[j] == rest[j - 1];
      }
    } else {
      assert CreatePlanets(s, i, make).1 == [];
    }
  }

  /** The scene effect of the creation loop alone: `n` times, make a mesh under the next id and add it. */
  function AddFresh(s: Scene, n: nat): Scene
    decreases n
  {
    if n == 0 then s else AddFresh(Scene(s.members + {s.nextId}, s.log + [Added(s.nextId)], s.nextId + 1), n - 1)
  }

  /** The scene after creating planets `i` to 4 is the scene after adding one fresh mesh per planet. */
  lemma {:induction false} CreatePlanetsAddsFresh(s: Scene, i: nat, make: (nat, Id) -> NavPlanet)
    requires i <= PlanetsPerStar
    ensures CreatePlanets(s, i, make).0 == AddFresh(s, PlanetsPerStar - i)
    decreases PlanetsPerStar - i
  {
    if i < PlanetsPerStar {
      CreatePlanetsSceneStep(s, i, make);
      CreatePlanetsAddsFresh(Scene(s.members + {s.nextId}, s.log + [Added(s.nextId)], s.nextId + 1), i + 1, make);
    }
  }

  lemma {:induction false} AddFreshCount(s: Scene, n: nat)
    ensures AddFresh(s, n).nextId == s.nextId + n
    decreases n
  {
    if n > 0 {
      AddFreshCount(Scene(s.members + {s.nextId}, s.log + [Added(s.nextId)], s.nextId + 1), n - 1);
    }
  }

  lemma {:induction false} AddFreshMembers(s: Scene, n: nat)
    ensures AddFresh(s, n).members == s.members + FreshIds(s.nextId, n)
    decreases n
  {
    if n > 0 {
      var sa := Scene(s.members + {s.nextId}, s.log + [Added(s.nextId)], s.nextId + 1);
      AddFreshMembers(sa, n - 1);
      MembersAfterOneMore(s.members, s.nextId, AddFresh(s, n).members, n - 1);
    }
  }

  lemma {:induction false} AddFreshLog(s: Scene, n: nat)
    ensures AddFresh(s, n).log == s.log + AddedEvents(s.nextId, n)
    decreases n
  {
    if n > 0 {
      var sa := Scene(s.members + {s.nextId}, s.log + [Added(s.nextId)], s.nextId + 1);
      AddFreshLog(sa, n - 1);
      LogAfterOneMore(s.log, s.nextId, AddFresh(s, n).log, n - 1);
    } else {
      assert AddedEvents(s.nextId, 0) == [];
    }
  }

  /** Adding `base` and then `n` more fresh ids adds `n + 1` fresh ids from `base`. */
  lemma MembersAfterOneMore(members: set<Id>, base: Id, after: set<Id>, n: nat)
    requires after == members + {base} + FreshIds(base + 1, n)
    ensures after == members + FreshIds(base, n + 1)
  {
    assert FreshIds(base, n + 1) == {base} + FreshIds(base + 1, n);
  }

  /** Logging `base` and then `n` more additions logs `n + 1` additions from `base`. */
  lemma LogAfterOneMore(log: seq<SceneEvent>, base: Id, after: seq<SceneEvent>, n: nat)
    requires after == log + [Added(base)] + AddedEvents(base + 1, n)
    ensures after == log + AddedEvents(base, n + 1)
  {
    AddedEventsCons(base, n + 1);
    AppendAssoc(log, [Added(base)], AddedEvents(base + 1, n));
  }

  /** Creating planets `i` to 4 adds exactly the next ids to the scene, logging one addition each. */
  lemma CreatePlanetsScene(s: Scene, i: nat, make: (nat, Id) -> NavPlanet)
    requires i <= PlanetsPerStar
    ensures CreatePlanets(s, i, make).0.nextId == s.nextId + (PlanetsPerStar - i)
    ensures CreatePlanets(s, i, make).0.members == s.members + FreshIds(s.nextId, PlanetsPerStar - i)
    ensures CreatePlanets(s, i, make).0.log == s.log + AddedEvents(s.nextId, PlanetsPerStar - i)
  {
    CreatePlanetsAddsFresh(s, i, make);
    AddFreshCount(s, PlanetsPerStar - i);
    AddFreshMembers(s, PlanetsPerStar - i);
    AddFreshLog(s, PlanetsPerStar - i);
  }

  /** The ids of the created planets are exactly the ids handed out. */
  lemma CreatedIds(s: Scene, make: (nat, Id) -> NavPlanet)
    requires KeepsIds(make)
    ensures Ids(CreatePlanets(s, 0, make).1) == FreshIds(s.nextId, PlanetsPerStar)
  {
    CreatePlanetsIds(s, 0, make);
    IdsOfRow(CreatePlanets(s, 0, make).1, s.nextId, PlanetsPerStar - 0);
  }

  /** Planet `i + j` sits on the `j`-th next id when the constructor keeps the ids it is given. */
  lemma {:induction false} CreatePlanetsIds(s: Scene, i: nat, make: (nat, Id) -> NavPlanet)
    requires KeepsIds(make) && i <= PlanetsPerStar
    ensures |CreatePlanets(s, i, make).1| == PlanetsPerStar - i
    ensures forall j | 0 <= j < PlanetsPerStar - i :: CreatePlanets(s, i, make).1[j].id == s.nextId + j
    decreases PlanetsPerStar - i
  {
    if i < PlanetsPerStar {
      var sa := Scene(s.members + {s.nextId}, s.log + [Added(s.nextId)], s.nextId + 1);
      CreatePlanetsStep(s, i, make);
      CreatePlanetsIds(sa, i + 1, make);
      var ps := CreatePlanets(s, i, make).1;
      var rest := CreatePlanets(sa, i + 1, make).1;
      forall j | 0 < j < PlanetsPerStar - i
        ensures ps[j].id == s.nextId + j
      {
        assert ps[j] == rest[j - 1];
      }
    } else {
      assert CreatePlanets(s, i, make).1 == [];
    }
  }

  /** Planets on consecutive ids from `base` have exactly those ids. */
  lemma IdsOfRow(ps: seq<NavPlanet>, base: Id, n: nat)
    requires |ps| == n
    requires forall j | 0 <= j < n :: ps[j].id == base + j
    ensures Ids(ps) == FreshIds(base, n)
  {
    forall k | k in FreshIds(base, n)
      ensures k in Ids(ps)
    {
      assert ps[k - base] in ps;
    }
  }

  /**
   Reaching star `s` gives it exactly five planets, made in order from the
   next five ids, labelled "Planeta 1" to "Planeta 5"; the star keeps its id and
   position, every other star is untouched, the prompt is shown, and nothing
   but the scene, the stars and the info text changes.
   */
  lemma DisplayPlanetsShape(nav: Nav, s: nat, rand: nat -> real, m: HostMath)
    requires s < |nav.stars|
    ensures var r := DisplayPlanets(nav, s, rand, m);
      && r == nav.(scene := r.scene, stars := r.stars, info := PlanetsPrompt)
      && |r.stars| == |nav.stars|
      && (forall t | 0 <= t < |nav.stars| && t != s :: r.stars[t] == nav.stars[t])
      && r.stars[s].id == nav.stars[s].id && r.stars[s].position == nav.stars[s].position
      && r.stars[s].planets.Some?
      && |PlanetsOf(r.stars[s])| == PlanetsPerStar
      && (forall j | 0 <= j < PlanetsPerStar ::
            && PlanetsOf(r.stars[s])[j] == MakeNavPlanet(j, nav.stars[s].position, rand, nav.scene.nextId + j, m)
            && PlanetsOf(r.stars[s])[j].name == PlanetName(j))
  {
    DisplayPlanetsFrame(nav, s, rand, m);
    DisplayPlanetsList(nav, s, rand, m);
  }

  /** Reaching a star replaces only that star's planet list, the scene and the info text. */
  lemma DisplayPlanetsFrame(nav: Nav, s: nat, rand: nat -> real, m: HostMath)
    requires s < |nav.stars|
    ensures var r := DisplayPlanets(nav, s, rand, m);
      var star := nav.stars[s];
      && r == nav.(scene := r.scene, stars := r.stars, info := PlanetsPrompt)
      && r.stars == nav.stars[s := star.(planets := Some(CreatePlanets(RemoveAll(nav.scene, PlanetsOf(star)), 0, OrbitingPlanet(star.position, rand, m)).1))]
  {
  }

  /** The new planet list of the reached star, planet by planet. */
  lemma DisplayPlanetsList(nav: Nav, s: nat, rand: nat -> real, m: HostMath)
    requires s < |nav.stars|
    ensures var star := nav.stars[s];
      var ps := CreatePlanets(RemoveAll(nav.scene, PlanetsOf(star)), 0, OrbitingPlanet(star.position, rand, m)).1;
      && |ps| == PlanetsPerStar
      && forall j | 0 <= j < PlanetsPerStar ::
           ps[j] == MakeNavPlanet(j, star.position, rand, nav.scene.nextId + j, m) && ps[j].name == PlanetName(j)
  {
    var star := nav.stars[s];
    var cleared := RemoveAll(nav.scene, PlanetsOf(star));
    RemoveAllLog(nav.scene, PlanetsOf(star));
    var make := OrbitingPlanet(star.position, rand, m);
    CreatePlanetsList(cleared, 0, make);
    var ps := CreatePlanets(cleared, 0, make).1;
    forall j | 0 <= j < PlanetsPerStar
      ensures ps[j] == MakeNavPlanet(j, star.position, rand, nav.scene.nextId + j, m) && ps[j].name == PlanetName(j)
    {
      assert ps[j] == make(0 + j, cleared.nextId + j);
    }
  }

  /** The five labels. */
  lemma PlanetLabels()
    ensures PlanetName(0) == "Planeta 1" && PlanetName(1) == "Planeta 2" && PlanetName(2) == "Planeta 3"
    ensures PlanetName(3) == "Planeta 4" && PlanetName(4) == "Planeta 5"
    ensures PlanetInfo(0) == "Este é o planeta 1." && PlanetInfo(4) == "Este é o planeta 5."
  {
  }

  /**
   Reaching star `s` removes its previous planets from the scene without
   releasing their resources, then adds the five new ones: the log grows by
   one removal per previous planet followed by one addition per new planet.
   */
  lemma DisplayPlanetsScene(nav: Nav, s: nat, rand: nat -> real, m: HostMath)
    requires s < |nav.stars|
    ensures var r := DisplayPlanets(nav, s, rand, m);
      var previous := PlanetsOf(nav.stars[s]);
      && r.scene.members == (nav.scene.members - Ids(previous)) + FreshIds(nav.scene.nextId, PlanetsPerStar)
      && r.scene.log == nav.scene.log + RemovedEvents(previous) + AddedEvents(nav.scene.nextId, PlanetsPerStar)
      && r.scene.nextId == nav.scene.nextId + PlanetsPerStar
      && Ids(PlanetsOf(r.stars[s])) == FreshIds(nav.scene.nextId, PlanetsPerStar)
      && NothingDisposed(RemovedEvents(previous) + AddedEvents(nav.scene.nextId, PlanetsPerStar))
  {
    var star := nav.stars[s];
    var removed := RemoveAll(nav.scene, PlanetsOf(star));
    RemoveAllEffect(nav.scene, PlanetsOf(star));
    CreatePlanetsScene(removed, 0, OrbitingPlanet(star.position, rand, m));
    CreatedIds(removed, OrbitingPlanet(star.position, rand, m));
    DisplayedScene(nav, s, removed, CreatePlanets(removed, 0, OrbitingPlanet(star.position, rand, m)), DisplayPlanets(nav, s, rand, m));
  }

  /** Removing the previous planets and then adding five fresh ones gives the written-out scene. */
  lemma DisplayedScene(nav: Nav, s: nat, removed: Scene, created: (Scene, seq<NavPlanet>), r: Nav)
    requires s < |nav.stars|
    requires var previous := PlanetsOf(nav.stars[s]);
      && removed.members == nav.scene.members - Ids(previous)
      && removed.log == nav.scene.log + RemovedEvents(previous)
      && removed.nextId == nav.scene.nextId
    requires created.0.nextId == removed.nextId + (PlanetsPerStar - 0)
    requires created.0.members == removed.members + FreshIds(removed.nextId, PlanetsPerStar - 0)
    requires created.0.log == removed.log + AddedEvents(removed.nextId, PlanetsPerStar - 0)
    requires Ids(created.1) == FreshIds(removed.nextId, PlanetsPerStar)
    requires r == nav.(scene := created.0, stars := nav.stars[s := nav.stars[s].(planets := Some(created.1))], info := PlanetsPrompt)
    ensures var previous := PlanetsOf(nav.stars[s]);
      && r.scene.members == (nav.scene.members - Ids(previous)) + FreshIds(nav.scene.nextId, PlanetsPerStar)
      && r.scene.log == nav.scene.log + RemovedEvents(previous) + AddedEvents(nav.scene.nextId, PlanetsPerStar)
      && r.scene.nextId == nav.scene.nextId + PlanetsPerStar
      && Ids(PlanetsOf(r.stars[s])) == FreshIds(nav.scene.nextId, PlanetsPerStar)
      && NothingDisposed(RemovedEvents(previous) + AddedEvents(nav.scene.nextId, PlanetsPerStar))
  {
    var previous := PlanetsOf(nav.stars[s]);
    var events := RemovedEvents(previous) + AddedEvents(nav.scene.nextId, PlanetsPerStar);
    assert r.stars[s].planets == Some(created.1);
    forall j | 0 <= j < |events|
      ensures events[j].Added? || events[j].Removed?
    {
      if j >= |previous| {
        assert events[j] == AddedEvents(nav.scene.nextId, PlanetsPerStar)[j - |previous|];
      }
    }
  }

  // ---------------------------------------------------------------------------
  // Displaying planets: where they lie
  // ---------------------------------------------------------------------------

  lemma PlanarDistance(d: real, c: real, s: real)
    requires c * c + s * s == 1.0
    ensures (d * c) * (d * c) + (d * s) * (d * s) == d * d
  {
    calc {
      (d * c) * (d * c) + (d * s) * (d * s);
      (d * d) * (c * c) + (d * d) * (s * s);
      (d * d) * (c * c + s * s);
    }
  }

  lemma SquareBetween(d: real)
    requires 5.0 <= d < 10.0
    ensures 25.0 <= d * d < 100.0
  {
    assert d * d >= 5.0 * d;
    assert d * d < 10.0 * d;
  }

  /**
   Planet `i` lies at squared distance in [25, 100) from the star's axis in
   the x-y plane (orbit radius in [5, 10)) at angle `i`, and its z is within
   [-2, 3) of the star's.
   */
  lemma DisplayedPlanetGeometry(i: nat, centre: Vec3, rand: nat -> real, id: Id, m: HostMath)
    requires i < PlanetsPerStar
    requires 0.0 <= rand(2 * i) < 1.0 && 0.0 <= rand(2 * i + 1) < 1.0
    requires TrigSoundAt(m, i as real)
    ensures var p := MakeNavPlanet(i, centre, rand, id, m).position;
      var d := 5.0 + rand(2 * i) * 5.0;
      && 5.0 <= d < 10.0
      && (p.x - centre.x) * (p.x - centre.x) + (p.y - centre.y) * (p.y - centre.y) == d * d
      && 25.0 <= d * d < 100.0
      && centre.z - 2.0 <= p.z < centre.z + 3.0
  {
    var d := 5.0 + rand(2 * i) * 5.0;
    var a := i as real;
    var p := MakeNavPlanet(i, centre, rand, id, m).position;
    assert p.x - centre.x == d * m.cos(a);
    assert p.y - centre.y == d * m.sin(a);
    PlanarDistance(d, m.cos(a), m.sin(a));
    SquareBetween(d);
  }

  // ---------------------------------------------------------------------------
  // Consistency of the scene with the stars' planet lists
  // ---------------------------------------------------------------------------

  lemma StarIdsUpdate(stars: seq<Star>, s: nat, x: Star)
    requires s < |stars| && x.id == stars[s].id
    ensures StarIds(stars[s := x]) == StarIds(stars)
  {
    var updated := stars[s := x];
    assert forall i | 0 <= i < |stars| :: updated[i].id == stars[i].id;
  }

  lemma PlanetIdsCover(stars: seq<Star>, t: nat)
    requires t < |stars|
    ensures Ids(PlanetsOf(stars[t])) <= PlanetIdsOf(stars)
  {
  }

  /** Replacing one star's planets swaps exactly their ids, provided no other star shares them. */
  lemma PlanetIdsUpdate(stars: seq<Star>, s: nat, x: Star)
    requires s < |stars|
    requires forall t | 0 <= t < |stars| && t != s :: Ids(PlanetsOf(stars[t])) !! Ids(PlanetsOf(stars[s]))
    ensures PlanetIdsOf(stars[s := x]) == (PlanetIdsOf(stars) - Ids(PlanetsOf(stars[s]))) + Ids(PlanetsOf(x))
  {
    var updated := stars[s := x];
    var previous := Ids(PlanetsOf(stars[s]));
    forall id | id in PlanetIdsOf(updated)
      ensures id in (PlanetIdsOf(stars) - previous) + Ids(PlanetsOf(x))
    {
      var t, p :| 0 <= t < |updated| && p in PlanetsOf(updated[t]) && p.id == id;
      if t != s {
        assert id in Ids(PlanetsOf(stars[t]));
      }
    }
    forall id | id in (PlanetIdsOf(stars) - previous) + Ids(PlanetsOf(x))
      ensures id in PlanetIdsOf(updated)
    {
      if id in Ids(PlanetsOf(x)) {
        var p :| p in PlanetsOf(x) && p.id == id;
        assert p in PlanetsOf(updated[s]);
      } else {
        var t, p :| 0 <= t < |stars| && p in PlanetsOf(stars[t]) && p.id == id;
        assert t != s;
        assert p in PlanetsOf(updated[t]);
      }
    }
  }

  /** The set algebra behind swapping one star's planets for freshly made ones. */
  lemma SwapPlanetIds(fixed: set<Id>, planets: set<Id>, previous: set<Id>, added: set<Id>, bound: Id)
    requires fixed !! planets && previous <= planets
    requires forall k | k in fixed + planets :: k < bound
    requires forall k | k in added :: k >= bound
    ensures ((fixed + planets) - previous) + added == fixed + ((planets - previous) + added)
    ensures fixed !! (planets - previous) + added
  {
  }

  /** After the swap no two stars share a planet id: the new ids are above every id in use before. */
  lemma SwapKeepsPlanetsApart(nav: Nav, r: Nav, s: nat)
    requires Consistent(nav) && s < |nav.stars| && |r.stars| == |nav.stars|
    requires forall t | 0 <= t < |nav.stars| && t != s :: r.stars[t] == nav.stars[t]
    requires forall k | k in Ids(PlanetsOf(r.stars[s])) :: k >= nav.scene.nextId
    ensures forall i, j | 0 <= i < |r.stars| && 0 <= j < |r.stars| && i != j ::
      Ids(PlanetsOf(r.stars[i])) !! Ids(PlanetsOf(r.stars[j]))
  {
    forall i, j | 0 <= i < |r.stars| && 0 <= j < |r.stars| && i != j
      ensures Ids(PlanetsOf(r.stars[i])) !! Ids(PlanetsOf(r.stars[j]))
    {
      if i == s {
        PlanetIdsCover(nav.stars, j);
      } else if j == s {
        PlanetIdsCover(nav.stars, i);
      }
    }
  }

  /**
   Replacing star `s`'s planets by planets with ids never used before, and
   the scene's members accordingly, keeps the scene consistent.
   */
  lemma SwapConsistent(nav: Nav, r: Nav, s: nat)
    requires Consistent(nav) && s < |nav.stars|
    requires r.universe == nav.universe && r.glows == nav.glows && r.controlsEnabled == r.focused
    requires |r.stars| == |nav.stars| && r.stars == nav.stars[s := r.stars[s]] && r.stars[s].id == nav.stars[s].id
    requires r.scene.members == (nav.scene.members - Ids(PlanetsOf(nav.stars[s]))) + Ids(PlanetsOf(r.stars[s]))
    requires forall k | k in Ids(PlanetsOf(r.stars[s])) :: nav.scene.nextId <= k < r.scene.nextId
    requires nav.scene.nextId <= r.scene.nextId
    ensures Consistent(r)
  {
    var previous := Ids(PlanetsOf(nav.stars[s]));
    var added := Ids(PlanetsOf(r.stars[s]));
    StarIdsUpdate(nav.stars, s, r.stars[s]);
    assert FixedIds(r) == FixedIds(nav);
    PlanetIdsUpdate(nav.stars, s, r.stars[s]);
    PlanetIdsCover(nav.stars, s);
    SwapPlanetIds(FixedIds(nav), PlanetIdsOf(nav.stars), previous, added, nav.scene.nextId);
    SwapKeepsPlanetsApart(nav, r, s);
  }

  /** Reaching a star keeps the scene consistent: its old planets leave, the new ones enter, nothing else moves. */
  lemma DisplayPlanetsConsistent(nav: Nav, s: nat, rand: nat -> real, m: HostMath)
    requires s < |nav.stars| && Consistent(nav)
    ensures Consistent(DisplayPlanets(nav, s, rand, m))
  {
    var r := DisplayPlanets(nav, s, rand, m);
    DisplayPlanetsScene(nav, s, rand, m);
    DisplayPlanetsShape(nav, s, rand, m);
    assert r.stars == nav.stars[s := r.stars[s]];
    SwapConsistent(nav, r, s);
  }

  /** Every pick candidate is an object of the scene. */
  lemma CandidatesInScene(nav: Nav)
    requires Consistent(nav)
    ensures forall p | p in PlanetCandidates(nav.stars) :: p.id in nav.scene.members
  {
    forall p | p in PlanetCandidates(nav.stars)
      ensures p.id in nav.scene.members
    {
      var i :| 0 <= i < |nav.stars| && p in PlanetsOf(nav.stars[i]);
      PlanetIdsCover(nav.stars, i);
    }
  }

  /**
   After reaching star `s`, its new planets and the planets of every star
   reached earlier are pick candidates and in the scene, while its previous
   planets are neither.
   */
  lemma ReachedStarPicking(nav: Nav, s: nat, rand: nat -> real, m: HostMath)
    requires s < |nav.stars| && Consistent(nav)
    ensures var r := DisplayPlanets(nav, s, rand, m);
      && (forall p | p in PlanetsOf(r.stars[s]) :: p in PlanetCandidates(r.stars) && p.id in r.scene.members)
      && (forall t, p | 0 <= t < |nav.stars| && t != s && p in PlanetsOf(nav.stars[t]) ::
            p in PlanetCandidates(r.stars) && p.id in r.scene.members)
      && (forall p | p in PlanetsOf(nav.stars[s]) :: p !in PlanetCandidates(r.stars) && p.id !in r.scene.members)
  {
    var r := DisplayPlanets(nav, s, rand, m);
    DisplayPlanetsShape(nav, s, rand, m);
    DisplayPlanetsScene(nav, s, rand, m);
    DisplayPlanetsConsistent(nav, s, rand, m);
    CandidatesInScene(r);
    forall p | p in PlanetsOf(nav.stars[s])
      ensures p !in PlanetCandidates(r.stars) && p.id !in r.scene.members
    {
      PlanetIdsCover(nav.stars, s);
      assert p.id in Ids(PlanetsOf(nav.stars[s]));
      assert p.id < nav.scene.nextId;
    }
  }

  // ---------------------------------------------------------------------------
  // Transitions
  // ---------------------------------------------------------------------------

  /** A frame keeps the scene consistent, also on the frame that reaches a star. */
  lemma FramePreservesConsistent(nav: Nav, loop: CameraLoop, rand: nat -> real, m: HostMath)
    requires Consistent(nav) && LoopFits(nav, loop)
    ensures Consistent(Frame(nav, loop, rand, m).nav)
  {
    var (n1, l1) := Advance(nav, loop);
    assert Consistent(n1);
    if l1.frames >= TransitionFrames && loop.Approach? {
      var s := loop.star;
      var n2 := n1.(controlsEnabled := true, controlsTarget := n1.stars[s].position, focused := true);
      assert Consistent(n2);
      DisplayPlanetsConsistent(n2, s, rand, m);
    }
  }

  /**
   While an approach is running, `n` more frames leave everything but the
   camera and its aim as it was; the camera is at progress `(k + n) / 50`
   along the fixed path.
   */
  lemma {:induction false} ApproachInFlight(nav: Nav, from: Vec3, to: Vec3, s: nat, k: nat, n: nat, rand: nat -> real, m: HostMath)
    requires s < |nav.stars| && k + n < TransitionFrames
    ensures RunFrames(Tick(nav, Some(Approach(from, to, s, k))), n, rand, m)
         == Tick(if n == 0 then nav else nav.(camera := Lerp(from, to, Progress(k + n)), aim := Some(nav.stars[s].position)),
                 Some(Approach(from, to, s, k + n)))
    decreases n
  {
    if n > 0 {
      var t1 := Frame(nav, Approach(from, to, s, k), rand, m);
      assert t1.next == Some(Approach(from, to, s, k + 1));
      ApproachInFlight(t1.nav, from, to, s, k + 1, n - 1, rand, m);
    }
  }

  /**
   An approach at frame `k` finishes after exactly `50 - k` more frames, with
   the camera at its end pose and aimed at the star, the controls on and
   aimed at the star, the view focused and the star's planets displayed.
   */
  lemma ApproachSettles(nav: Nav, from: Vec3, to: Vec3, s: nat, k: nat, rand: nat -> real, m: HostMath)
    requires s < |nav.stars| && k < TransitionFrames
    ensures var target := nav.stars[s].position;
      RunFrames(Tick(nav, Some(Approach(from, to, s, k))), TransitionFrames - k, rand, m)
      == Tick(DisplayPlanets(nav.(camera := to, aim := Some(target), controlsEnabled := true, controlsTarget := target, focused := true),
                             s, rand, m),
              None)
  {
    var target := nav.stars[s].position;
    var t := Tick(nav, Some(Approach(from, to, s, k)));
    var n := TransitionFrames - 1 - k;
    RunFramesLast(t, TransitionFrames - k, n, rand, m);
    ApproachKeepsState(nav, from, to, s, k, n, rand, m);
    ApproachFinalRun(RunFrames(t, n, rand, m), nav, from, to, s, rand, m);
  }

  /** From frame 49 of an approach that has changed only the camera and its aim, one more frame settles. */
  lemma ApproachFinalRun(r: Tick, nav: Nav, from: Vec3, to: Vec3, s: nat, rand: nat -> real, m: HostMath)
    requires s < |nav.stars|
    requires r.next == Some(Approach(from, to, s, TransitionFrames - 1))
    requires r.nav == nav.(camera := r.nav.camera, aim := r.nav.aim)
    ensures var target := nav.stars[s].position;
      RunFrames(r, 1, rand, m)
      == Tick(DisplayPlanets(nav.(camera := to, aim := Some(target), controlsEnabled := true, controlsTarget := target, focused := true),
                             s, rand, m),
              None)
  {
    RunOneFrame(r, rand, m);
    ApproachLastFrame(r.nav, from, to, s, TransitionFrames - 1, rand, m);
    SameReachedPose(nav, r.nav, to, nav.stars[s].position);
  }

  /** While an approach is running, frames change only the camera and its aim. */
  lemma {:induction false} ApproachKeepsState(nav: Nav, from: Vec3, to: Vec3, s: nat, k: nat, n: nat, rand: nat -> real, m: HostMath)
    requires s < |nav.stars| && k + n < TransitionFrames
    ensures var r := RunFrames(Tick(nav, Some(Approach(from, to, s, k))), n, rand, m);
      && r.next == Some(Approach(from, to, s, k + n))
      && r.nav == nav.(camera := r.nav.camera, aim := r.nav.aim)
    decreases n
  {
    if n > 0 {
      var t1 := Frame(nav, Approach(from, to, s, k), rand, m);
      assert t1 == Tick(t1.nav, Some(Approach(from, to, s, k + 1)));
      ApproachKeepsState(t1.nav, from, to, s, k + 1, n - 1, rand, m);
    }
  }

  /** Running `a` frames and then `b` more is running `a + b` frames. */
  lemma {:induction false} RunFramesSplit(t: Tick, a: nat, b: nat, rand: nat -> real, m: HostMath)
    requires t.next.Some? ==> LoopFits(t.nav, t.next.value)
    ensures RunFrames(t, a + b, rand, m) == RunFrames(RunFrames(t, a, rand, m), b, rand, m)
    decreases a
  {
    if a > 0 && t.next.Some? {
      RunFramesSplit(Frame(t.nav, t.next.value, rand, m), a - 1, b, rand, m);
    } else if t.next.None? {
      RunFramesStop(t, b, rand, m);
      RunFramesStop(t, a + b, rand, m);
    }
  }

  /** A finished transition runs no more frames. */
  lemma {:induction false} RunFramesStop(t: Tick, n: nat, rand: nat -> real, m: HostMath)
    requires t.next.None?
    ensures RunFrames(t, n, rand, m) == t
  {
  }

  /** Running `total` frames is running all but the last and then one more. */
  lemma RunFramesLast(t: Tick, total: nat, n: nat, rand: nat -> real, m: HostMath)
    requires t.next.Some? ==> LoopFits(t.nav, t.next.value)
    requires total == n + 1
    ensures RunFrames(t, total, rand, m) == RunFrames(RunFrames(t, n, rand, m), 1, rand, m)
  {
    RunFramesSplit(t, n, 1, rand, m);
  }

  lemma RunOneFrame(t: Tick, rand: nat -> real, m: HostMath)
    requires t.next.Some? && LoopFits(t.nav, t.next.value)
    ensures RunFrames(t, 1, rand, m) == Frame(t.nav, t.next.value, rand, m)
  {
    var f := Frame(t.nav, t.next.value, rand, m);
    assert RunFrames(f, 0, rand, m) == f;
  }

  lemma RunFramesStep(t: Tick, n: nat, rand: nat -> real, m: HostMath)
    requires t.next.Some? && LoopFits(t.nav, t.next.value) && n > 0
    ensures RunFrames(t, n, rand, m) == RunFrames(Frame(t.nav, t.next.value, rand, m), n - 1, rand, m)
  {
  }

  /** Two states that differ at most in the camera and its aim reach the same pose. */
  lemma SameReachedPose(nav: Nav, other: Nav, to: Vec3, target: Vec3)
    requires other == nav.(camera := other.camera, aim := other.aim)
    ensures other.(camera := to, aim := Some(target), controlsEnabled := true, controlsTarget := target, focused := true)
         == nav.(camera := to, aim := Some(target), controlsEnabled := true, controlsTarget := target, focused := true)
  {
  }

  /** The 50th frame of an approach lands on the end pose and settles. */
  lemma ApproachLastFrame(nav: Nav, from: Vec3, to: Vec3, s: nat, k: nat, rand: nat -> real, m: HostMath)
    requires s < |nav.stars| && k + 1 == TransitionFrames
    ensures var target := nav.stars[s].position;
      Frame(nav, Approach(from, to, s, k), rand, m)
      == Tick(DisplayPlanets(nav.(camera := to, aim := Some(target), controlsEnabled := true, controlsTarget := target, focused := true),
                             s, rand, m),
              None)
  {
    var target := nav.stars[s].position;
    assert Progress(k + 1) == 1.0;
    var n1 := nav.(camera := to, aim := Some(target));
    assert Advance(nav, Approach(from, to, s, k)) == (n1, Approach(from, to, s, k + 1));
  }

  /** While the flight back is running, only the camera and its aim change. */
  lemma {:induction false} RetreatInFlight(nav: Nav, from: Vec3, k: nat, n: nat, rand: nat -> real, m: HostMath)
    requires k + n < TransitionFrames
    ensures RunFrames(Tick(nav, Some(Retreat(from, k))), n, rand, m)
         == Tick(if n == 0 then nav else nav.(camera := Lerp(from, InitialCamera, Progress(k + n)), aim := Some(Origin)),
                 Some(Retreat(from, k + n)))
    decreases n
  {
    if n > 0 {
      var t1 := Frame(nav, Retreat(from, k), rand, m);
      RetreatInFlight(t1.nav, from, k + 1, n - 1, rand, m);
    }
  }

  /**
   The flight back at frame `k` finishes after exactly `50 - k` more frames
   with the camera at (0, 0, 50) aimed at the origin, the controls off and the
   view unfocused; nothing else changes, the displayed planets included.
   */
  lemma {:induction false} RetreatSettles(nav: Nav, from: Vec3, k: nat, rand: nat -> real, m: HostMath)
    requires k < TransitionFrames
    ensures RunFrames(Tick(nav, Some(Retreat(from, k))), TransitionFrames - k, rand, m)
         == Tick(nav.(camera := InitialCamera, aim := Some(Origin), controlsEnabled := false, focused := false), None)
    decreases TransitionFrames - k
  {
    var t1 := Frame(nav, Retreat(from, k), rand, m);
    if k + 1 < TransitionFrames {
      RetreatSettles(t1.nav, from, k + 1, rand, m);
    }
  }

  /**
   `moveToStar`: for the 48 frames after the first the flags, the controls,
   the stars and the scene stay as they were and the camera is on its way;
   the 49th finishes the flight at the end pose with the controls on and
   aimed at the star, the view focused and the star's planets displayed.
   */
  lemma MoveToStarCompletes(nav: Nav, s: nat, rand: nat -> real, m: HostMath)
    requires s < |nav.stars|
    ensures var t := MoveToStar(nav, s, m);
      forall n | 0 <= n < TransitionFrames - 1 ::
        && RunFrames(t, n, rand, m).next.Some?
        && RunFrames(t, n, rand, m).nav.(camera := nav.camera, aim := nav.aim) == nav
    ensures var target := nav.stars[s].position;
      var final := EndPose(nav.camera, target, m);
      RunFrames(MoveToStar(nav, s, m), TransitionFrames - 1, rand, m)
      == Tick(DisplayPlanets(nav.(camera := final, aim := Some(target), controlsEnabled := true, controlsTarget := target, focused := true),
                             s, rand, m),
              None)
  {
    var target := nav.stars[s].position;
    var final := EndPose(nav.camera, target, m);
    var t := MoveToStar(nav, s, m);
    forall n | 0 <= n < TransitionFrames - 1
      ensures RunFrames(t, n, rand, m).next.Some? && RunFrames(t, n, rand, m).nav.(camera := nav.camera, aim := nav.aim) == nav
    {
      ApproachKeepsState(t.nav, nav.camera, final, s, 1, n, rand, m);
    }
    ApproachSettles(t.nav, nav.camera, final, s, 1, rand, m);
    assert t.nav.(camera := final, aim := Some(target), controlsEnabled := true, controlsTarget := target, focused := true)
        == nav.(camera := final, aim := Some(target), controlsEnabled := true, controlsTarget := target, focused := true);
  }

  /**
   `exitZoom`: the flags and everything but the camera stay as they were for
   48 frames after the first; the 49th lands at (0, 0, 50) aimed at the
   origin, controls off, view unfocused.
   */
  lemma ExitZoomCompletes(nav: Nav, rand: nat -> real, m: HostMath)
    ensures forall n | 0 <= n < TransitionFrames - 1 ::
      && RunFrames(ExitZoom(nav), n, rand, m).next.Some?
      && RunFrames(ExitZoom(nav), n, rand, m).nav.(camera := nav.camera, aim := nav.aim) == nav
    ensures RunFrames(ExitZoom(nav), TransitionFrames - 1, rand, m)
         == Tick(nav.(camera := InitialCamera, aim := Some(Origin), controlsEnabled := false, focused := false), None)
  {
    var t := ExitZoom(nav);
    forall n | 0 <= n < TransitionFrames - 1
      ensures RunFrames(t, n, rand, m).next.Some? && RunFrames(t, n, rand, m).nav.(camera := nav.camera, aim := nav.aim) == nav
    {
      RetreatInFlight(t.nav, nav.camera, 1, n, rand, m);
    }
    RetreatSettles(t.nav, nav.camera, 1, rand, m);
  }

  // ---------------------------------------------------------------------------
  // The end pose of an approach
  // ---------------------------------------------------------------------------

  lemma ScaleLengthSquared(a: Vec3, c: real)
    ensures LengthSquared(Scale(a, c)) == c * c * LengthSquared(a)
  {
    calc {
      LengthSquared(Scale(a, c));
      (a.x * c) * (a.x * c) + (a.y * c) * (a.y * c) + (a.z * c) * (a.z * c);
      (c * c) * (a.x * a.x) + (c * c) * (a.y * a.y) + (c * c) * (a.z * a.z);
      c * c * LengthSquared(a);
    }
  }

  /**
   When the camera is away from the star (positive squared distance) and
   `sqrt` is a square root there, the end pose lies on the ray from the star
   through the camera, at distance 5 (`safeDistance`) from the star.
   */
  lemma EndPoseAtSafeDistance(camera: Vec3, target: Vec3, m: HostMath)
    requires LengthSquared(Minus(camera, target)) > 0.0
    requires SqrtSoundAt(m, LengthSquared(Minus(camera, target)))
    ensures var len := m.sqrt(LengthSquared(Minus(camera, target)));
      && len > 0.0
      && Minus(EndPose(camera, target, m), target) == Scale(Minus(camera, target), SafeDistance / len)
      && LengthSquared(Minus(EndPose(camera, target, m), target)) == SafeDistance * SafeDistance
  {
    var d := Minus(camera, target);
    var sq := LengthSquared(d);
    var len := m.sqrt(sq);
    assert len != 0.0;
    var c := SafeDistance / len;
    var offset := Scale(Normalize(d, m), SafeDistance);
    assert offset == Scale(d, c);
    assert Minus(EndPose(camera, target, m), target) == offset;
    ScaleLengthSquared(d, c);
    assert c * c == (SafeDistance * SafeDistance) / (len * len);
    assert c * c * sq == SafeDistance * SafeDistance;
  }

  /**
   When the camera is exactly at the star the direction is the zero vector,
   which `normalize` leaves at zero, so the end pose is the star's own
   position: the safe distance is not kept.
   */
  lemma EndPoseAtCoincidentCamera(camera: Vec3, m: HostMath)
    requires m.sqrt(0.0) == 0.0
    ensures EndPose(camera, camera, m) == camera
  {
    assert Minus(camera, camera) == Origin;
    assert Normalize(Origin, m) == Origin by {
      assert LengthSquared(Origin) == 0.0;
    }
    ZeroOffset(camera);
  }

  lemma ZeroOffset(camera: Vec3)
    ensures Plus(camera, Scale(Origin, SafeDistance)) == camera
  {
    assert Scale(Origin, SafeDistance) == Origin;
    assert Plus(camera, Origin) == Vec3(camera.x, camera.y, camera.z);
  }

  // ---------------------------------------------------------------------------
  // Handlers: no guards, and consistency everywhere
  // ---------------------------------------------------------------------------

  /** A star hit starts the same flight whether or not the view is focused and the controls are on. */
  lemma StarClickHasNoGuard(nav: Nav, hits: seq<nat>, m: HostMath, focused: bool, enabled: bool)
    requires forall h | h in hits :: h < |nav.stars|
    ensures StarClick(nav.(focused := focused, controlsEnabled := enabled), hits, m).next == StarClick(nav, hits, m).next
  {
  }

  /** Escape starts the flight back whether or not the view is focused. */
  lemma EscapeHasNoGuard(nav: Nav, focused: bool, enabled: bool)
    ensures KeyDown(nav.(focused := focused, controlsEnabled := enabled), "Escape").next == Some(Retreat(nav.camera, 1))
  {
  }

  /** Changing only what the camera, the info panel and the rotations show keeps the scene consistent. */
  lemma ViewChangeKeepsConsistent(nav: Nav, r: Nav)
    requires Consistent(nav)
    requires r.scene == nav.scene && r.universe == nav.universe && r.stars == nav.stars && r.glows == nav.glows
    requires r.controlsEnabled == nav.controlsEnabled && r.focused == nav.focused
    ensures Consistent(r)
  {
    assert FixedIds(r) == FixedIds(nav);
  }

  /** A star click keeps the scene consistent, and the flight it starts can be run by `Frame`. */
  lemma StarClickKeepsConsistent(nav: Nav, hits: seq<nat>, m: HostMath)
    requires Consistent(nav)
    requires forall h | h in hits :: h < |nav.stars|
    ensures Consistent(StarClick(nav, hits, m).nav)
    ensures StarClick(nav, hits, m).next.Some? ==> LoopFits(StarClick(nav, hits, m).nav, StarClick(nav, hits, m).next.value)
  {
    if hits != [] {
      assert hits[0] in hits;
      ViewChangeKeepsConsistent(nav, StarClick(nav, hits, m).nav);
    }
  }

  /** A key press keeps the scene consistent, and the flight it starts can be run by `Frame`. */
  lemma KeyDownKeepsConsistent(nav: Nav, key: string)
    requires Consistent(nav)
    ensures Consistent(KeyDown(nav, key).nav)
    ensures KeyDown(nav, key).next.Some? ==> LoopFits(KeyDown(nav, key).nav, KeyDown(nav, key).next.value)
  {
    ViewChangeKeepsConsistent(nav, KeyDown(nav, key).nav);
  }

  /** Planet picks, pointer moves, animation frames and the rotation button keep the scene consistent. */
  lemma ViewHandlersKeepConsistent(nav: Nav, picks: seq<NavPlanet>, x: real, y: real, width: real, height: real)
    requires Consistent(nav)
    requires forall p | p in picks :: p in PlanetCandidates(nav.stars)
    requires width > 0.0 && height > 0.0
    ensures Consistent(PlanetClick(nav, picks))
    ensures Consistent(MouseMove(nav, x, y, width, height))
    ensures Consistent(AnimateFrame(nav))
    ensures Consistent(ToggleRotation(nav))
  {
    ViewChangeKeepsConsistent(nav, PlanetClick(nav, picks));
    ViewChangeKeepsConsistent(nav, MouseMove(nav, x, y, width, height));
    ViewChangeKeepsConsistent(nav, AnimateFrame(nav));
    ViewChangeKeepsConsistent(nav, ToggleRotation(nav));
  }

  /** Any number of frames keeps the scene consistent. */
  lemma {:induction false} RunPreservesConsistent(t: Tick, n: nat, rand: nat -> real, m: HostMath)
    requires Consistent(t.nav)
    requires t.next.Some? ==> LoopFits(t.nav, t.next.value)
    ensures Consistent(RunFrames(t, n, rand, m).nav)
    decreases n
  {
    if n > 0 && t.next.Some? {
      FramePreservesConsistent(t.nav, t.next.value, rand, m);
      RunPreservesConsistent(Frame(t.nav, t.next.value, rand, m), n - 1, rand, m);
    }
  }

  /**
   Fly to star `s` and, once there, press Escape: 49 frames later the camera
   is back at (0, 0, 50) aimed at the origin, unfocused with the controls
   off, while the orbit-controls target stays at the star and the star's five
   planets stay in the scene and pickable.
   */
  lemma FocusThenExit(nav: Nav, s: nat, rand: nat -> real, m: HostMath)
    requires Consistent(nav) && s < |nav.stars|
    ensures var reached := RunFrames(MoveToStar(nav, s, m), TransitionFrames - 1, rand, m).nav;
      var back := RunFrames(KeyDown(reached, "Escape"), TransitionFrames - 1, rand, m);
      && back.next.None?
      && back.nav.camera == InitialCamera && back.nav.aim == Some(Origin)
      && !back.nav.focused && !back.nav.controlsEnabled
      && back.nav.controlsTarget == nav.stars[s].position
      && back.nav.rotationEnabled == nav.rotationEnabled && back.nav.sceneRotationY == nav.sceneRotationY
      && |PlanetsOf(back.nav.stars[s])| == PlanetsPerStar
      && (forall p | p in PlanetsOf(back.nav.stars[s]) :: p in PlanetCandidates(back.nav.stars) && p.id in back.nav.scene.members)
      && Consistent(back.nav)
  {
    var target := nav.stars[s].position;
    var final := EndPose(nav.camera, target, m);
    var arriving := nav.(camera := final, aim := Some(target), controlsEnabled := true, controlsTarget := target, focused := true);
    MoveToStarCompletes(nav, s, rand, m);
    var reached := DisplayPlanets(arriving, s, rand, m);
    assert RunFrames(MoveToStar(nav, s, m), TransitionFrames - 1, rand, m).nav == reached;
    Arrival(arriving, s, rand, m);
    ExitZoomCompletes(reached, rand, m);
    var back := reached.(camera := InitialCamera, aim := Some(Origin), controlsEnabled := false, focused := false);
    assert RunFrames(KeyDown(reached, "Escape"), TransitionFrames - 1, rand, m) == Tick(back, None);
    Departure(reached, s);
  }

  /** What reaching star `s` leaves behind. */
  lemma Arrival(arriving: Nav, s: nat, rand: nat -> real, m: HostMath)
    requires Consistent(arriving) && s < |arriving.stars|
    ensures var reached := DisplayPlanets(arriving, s, rand, m);
      && Consistent(reached)
      && reached.controlsTarget == arriving.controlsTarget
      && reached.rotationEnabled == arriving.rotationEnabled && reached.sceneRotationY == arriving.sceneRotationY
      && |PlanetsOf(reached.stars[s])| == PlanetsPerStar
      && (forall p | p in PlanetsOf(reached.stars[s]) :: p in PlanetCandidates(reached.stars) && p.id in reached.scene.members)
  {
    DisplayPlanetsFrame(arriving, s, rand, m);
    DisplayPlanetsList(arriving, s, rand, m);
    DisplayPlanetsConsistent(arriving, s, rand, m);
    ReachedStarPicking(arriving, s, rand, m);
  }

  /** Leaving focus keeps the planets, the scene and its consistency. */
  lemma Departure(reached: Nav, s: nat)
    requires Consistent(reached) && s < |reached.stars|
    requires forall p | p in PlanetsOf(reached.stars[s]) :: p in PlanetCandidates(reached.stars) && p.id in reached.scene.members
    ensures var back := reached.(camera := InitialCamera, aim := Some(Origin), controlsEnabled := false, focused := false);
      && Consistent(back)
      && (forall p | p in PlanetsOf(back.stars[s]) :: p in PlanetCandidates(back.stars) && p.id in back.scene.members)
  {
    var back := reached.(camera := InitialCamera, aim := Some(Origin), controlsEnabled := false, focused := false);
    assert FixedIds(back) == FixedIds(reached);
  }
}
