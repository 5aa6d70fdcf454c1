# Exoplanet viewer: a Dafny model

This project models the two browser prototypes of the exoplanets-exploration
viewer:

- **The single-system viewer** (`exoplanets-exploration/js/main.js`). It
  groups the exoplanet records by host star (`kepid`) and picks one group at
  random. It tears down the system shown before, then builds a star at the
  origin and one planet per record. Each planet is sized by `koi_prad`
  (falling back to 1) and textured by `koi_teq` (hot above 500, cold below 0).
  Each frame advances every planet's angle by 0.005. The page also has a
  rotation toggle and click-to-inspect picking.
- **The navigation viewer** (`exoplanets-exploration/main.js`). It builds a
  field of 100 stars, each with a glow sprite. Clicking a star flies the
  camera to 5 units short of it in 50 frames. On arrival the orbit controls
  are enabled, the view is marked focused, and five planets are generated
  around that star (the star's earlier ones are removed first). Escape flies
  back to (0, 0, 50), then disables the controls and leaves focus. The page
  also has pointer parallax, a rotation toggle and planet picking.

Modules:

| module | file | what it holds |
|---|---|---|
| `Wrappers` | wrappers.dfy | `Option` |
| `Geometry` | geometry.dfy | `Vec3`, `lerpVectors`, `normalize`, and the host's `cos`/`sin`/`sqrt` as a `HostMath` value |
| `SceneGraph` | scene_graph.dfy | a scene as a set of object ids plus a log of add/remove/dispose calls; ids come from a counter, one per constructed mesh |
| `Dataset` | dataset.dfy | the exoplanet record, `groupExoplanetsByStar` as written (a walk into an object keyed by `kepid`, then `Object.values`), and a reference grouping defined independently |
| `Grouping` | grouping.dfy | the proofs that the two groupings agree, and what follows from that |
| `SingleSystem`, `SingleSystemFacts` | single_system.dfy, single_system_facts.dfy | the single-system viewer and its properties |
| `Navigation`, `NavigationFacts` | navigation.dfy, navigation_facts.dfy | the navigation viewer and its properties |

Modelling conventions:

- `Math.random()` is a host-supplied stream `rand: nat -> real`.
  - Single-system viewer: `rand(0)` picks the group, and `rand(1 + i)` is planet `i`'s starting angle.
  - Navigation viewer: `rand(3i)`, `rand(3i + 1)` and `rand(3i + 2)` place star `i`. When planets are displayed, `rand(2j)` and `rand(2j + 1)` are the distance draw and the z draw of planet `j`.
- `Math.cos`, `Math.sin` and `Math.sqrt` are fields of a `HostMath` parameter. A lemma that needs one of their laws states that law as a precondition (`TrigSoundAt`, `SqrtSoundAt`).
- Arithmetic is on exact reals.
- The planet loop of `displayPlanets` takes the planet constructor as a parameter. `OrbitingPlanet` is the one the handler uses: planet `i` on a mesh, at its orbit position, with its two labels.
- A camera transition is an integer frame count `k`, with progress `k / 50`.
  - The first frame runs synchronously inside the handler, so the handler returns after frame 1.
  - `RunFrames` stands for the browser's `requestAnimationFrame` loop.
  - Adding 0.02 fifty times in binary64 gives 1.0000000000000004. So the source also completes on the 50th frame, and the final `lerpVectors` overshoots only by rounding.

Behaviours of the source worth noting, all modelled as written:

- `koi_prad || 1` keeps a negative radius. It only replaces a missing or zero one.
- The star-click and Escape handlers have no guard on the focus flag.
  - A star click while focused starts a new flight.
  - Escape while unfocused still flies back to the initial camera position.
- Planet picking in the navigation viewer offers the planets of every star ever reached, not only the focused one.
- In the single-system viewer a planet starts in the x-y plane (z = 0), but the frame update puts it in the x-z plane (y = 0).

Some functions only compute a value, and lemmas state their properties:

- `SingleSystem.MakePlanet`: `SingleSystemFacts.BuildPlanetsMakes`, `BuildSystemShape`, `BuildSystemPositions` and `BuiltRadiiNonZero`.
- `Dataset.Enter`, `EnterAll`, `ObjectValues` and `GroupExoplanetsByStar`: `Grouping.EnterEffect`, `EnterAllKeys`, `EnterAllContents` and `GroupingMatchesReference`, then the `Grouping` lemmas about the result.
- `Navigation.CreatePlanets`: `NavigationFacts.CreatePlanetsList`, `CreatedIds` and `CreatePlanetsScene`.
- `Navigation.MakeNavPlanet`: `NavigationFacts.DisplayPlanetsShape` and `DisplayedPlanetGeometry`.
- `Navigation.EndPose`: `NavigationFacts.EndPoseAtSafeDistance` and `EndPoseAtCoincidentCamera`.

## Model

| member | source | states |
|---|---|---|
| SingleSystem.TextureForPlanet | exoplanets-exploration/js/main.js:122-130 | hot exactly when the temperature is present and above 500, cold exactly when present and below 0, generic otherwise (missing value, 0 and 500 included) |
| SingleSystemFacts.TextureMonotone | exoplanets-exploration/js/main.js:122-130 | a warmer temperature never gets a colder texture |
| SingleSystemFacts.TextureSamples | exoplanets-exploration/js/main.js:122-130 | 600 is hot, -10 cold, 50 generic, and the bounds 500 and 0 are generic |
| SingleSystem.PlanetRadius | exoplanets-exploration/js/main.js:181 | a missing or zero radius becomes 1, any other value is kept, and the result is never 0 |
| SingleSystemFacts.PlanetRadiusSamples | exoplanets-exploration/js/main.js:181 | missing and 0 give 1, 2.5 stays 2.5, and -3 is kept |
| SingleSystemFacts.BuiltRadiiNonZero | exoplanets-exploration/js/main.js:179-191 | every planet of a built system has a non-zero sphere radius, positive when its record's radius is missing or non-negative, and equal to a positive record radius |
| Grouping.GroupingMatchesReference | exoplanets-exploration/js/main.js:133-146 | the walk into an object followed by `Object.values` equals the reference grouping: one group per distinct `kepid` in ascending key order, each holding that star's records in input order |
| Grouping.EnterEffect | exoplanets-exploration/js/main.js:136-143 | one step of the walk creates the entry for a new star and appends the record to its own star's list, leaving every other entry alone |
| Grouping.EnterAllKeys | exoplanets-exploration/js/main.js:135-144 | after the walk the object has exactly one key per distinct `kepid`, each entry carrying its own key |
| Grouping.EnterAllContents | exoplanets-exploration/js/main.js:135-144 | after the walk each star's list is exactly that star's records, in input order |
| Grouping.GroupingOneGroupPerStar | exoplanets-exploration/js/main.js:133-146 | as many groups as distinct star ids, strictly ascending ids, each group non-empty, every record's star has a group, and no records give no groups |
| Grouping.GroupingPlacesEveryRecord | exoplanets-exploration/js/main.js:133-146 | a record is in a group exactly when the group's id is its `kepid`; groups hold only input records, and no record is in two groups |
| Grouping.GroupingKeepsInputOrder | exoplanets-exploration/js/main.js:143 | every group is a subsequence of the input, so records keep their relative order |
| Grouping.GroupingIsLossless | exoplanets-exploration/js/main.js:133-146 | the groups concatenated are a permutation of the input: nothing lost or duplicated |
| Grouping.GroupSizesBounded | exoplanets-exploration/js/main.js:133-146 | no group is larger than the input |
| Grouping.InRecordsOf | exoplanets-exploration/js/main.js:137-143 | a record is filed under an id exactly when it is an input record with that `kepid` |
| Grouping.RecordsOfIsSubsequence | exoplanets-exploration/js/main.js:143 | the records filed under one star form a subsequence of the input |
| Dataset.SortedKeys | exoplanets-exploration/js/main.js:145 | the order `Object.values` visits integer keys in: strictly increasing, exactly the given keys, no repeats |
| Dataset.Kepids | exoplanets-exploration/js/main.js:136 | the star ids met: every record's `kepid` is in it, and nothing else is |
| SingleSystemFacts.TwoStarGrouping | exoplanets-exploration/js/main.js:133-146 | records of stars 1, 1 and 2 form the groups (1: both of its records, in order) and (2: its one record) |
| SingleSystem.SelectIndex | exoplanets-exploration/js/main.js:166-167 | a draw in [0, 1) gives an index in range for a non-empty list, and 0 for an empty one |
| SingleSystem.ChosenGroup | exoplanets-exploration/js/main.js:163-167 | the chosen system is one of the groups; it is non-empty, no larger than the data, and holds only that star's input records |
| SingleSystem.InitialViewer | exoplanets-exploration/js/main.js:9-61 | the page starts with no system shown, rotation off, and only the universe sphere in the scene |
| SingleSystem.ReleasePlanets | exoplanets-exploration/js/main.js:152-156 | the planets' ids leave the scene, three calls are logged per planet, and no id is handed out |
| SingleSystem.Release | exoplanets-exploration/js/main.js:151-160 | exactly the previous system's bodies leave the scene, and no id is handed out |
| SingleSystem.BuildPlanets | exoplanets-exploration/js/main.js:179-219 | one planet per record, each costing one log entry and one fresh id |
| SingleSystem.BuildSystem | exoplanets-exploration/js/main.js:170-221 | the installed system has the star at the origin on the next free id and one planet per record; one id per body is handed out; the click prompt is shown; rotation is untouched |
| SingleSystem.GenerateRandomStarSystem | exoplanets-exploration/js/main.js:149-224 | a system is shown afterwards, its star on the first id after the teardown, with the click prompt; rotation is untouched |
| SingleSystemFacts.ReleaseLogs | exoplanets-exploration/js/main.js:151-160 | teardown removes exactly the old system's bodies from the scene, and logs each planet's remove/dispose-geometry/dispose-material and then the star's |
| SingleSystemFacts.ReleasePlanetsLogs | exoplanets-exploration/js/main.js:152-156 | the planet teardown removes exactly those planets and logs their three calls each, in list order |
| SingleSystemFacts.TeardownReleasesAll | exoplanets-exploration/js/main.js:151-160 | teardown adds nothing, and it removes and disposes the geometry and material of every body of the old system |
| SingleSystemFacts.ReleaseEventsReleaseAll | exoplanets-exploration/js/main.js:152-156 | the planet teardown adds nothing and releases every planet |
| SingleSystemFacts.BuildPlanetsLogs | exoplanets-exploration/js/main.js:179-219 | the `map` adds one freshly numbered body per record, in order, and removes nothing |
| SingleSystemFacts.BuildPlanetsMakes | exoplanets-exploration/js/main.js:179-219 | planet `i` of the `map` is built from record `i` with index `i`, angle draw `rand(1 + i)` and the next free id |
| SingleSystemFacts.FreshIdsDistinct | exoplanets-exploration/js/main.js:187-191 | bodies built from consecutive ids are pairwise distinct and all lie in the new range |
| SingleSystemFacts.BuildSystemScene | exoplanets-exploration/js/main.js:170-221 | a build adds the star and then the planets under consecutive fresh ids, and installs `{ starMesh, planets }` |
| SingleSystemFacts.BuildSystemShape | exoplanets-exploration/js/main.js:175-215 | the star is at the origin; planet `i` copies record `i`'s columns, orbits at 10 + 5i with angle `rand(1 + i)` * 2π, and has the record's radius and temperature texture |
| SingleSystemFacts.BuildSystemPositions | exoplanets-exploration/js/main.js:183-197 | every planet starts at (cos a · d, sin a · d, 0) for its angle a and orbit distance d: on its orbit around the origin star, in the x-y plane |
| SingleSystemFacts.GenerationBuildsChosenSystem | exoplanets-exploration/js/main.js:149-224 | after generation the current system is the chosen group's star at the origin plus one planet per record, in record order, with its metadata, orbit, radius and texture, and the info prompt shown |
| SingleSystemFacts.GenerationScene | exoplanets-exploration/js/main.js:149-224 | the scene after generation: old bodies gone, the new star and planets present, and the log extended by the teardown and then the additions |
| SingleSystemFacts.GenerationReleasesBeforeAdding | exoplanets-exploration/js/main.js:151-176 | regeneration releases every body of the previous system before the first addition, and only ever adds freshly constructed bodies |
| SingleSystemFacts.RegenerationKeepsSceneExact | exoplanets-exploration/js/main.js:149-224 | if the scene held exactly a background (the universe sphere) and the previous system, it holds exactly that background and the new system afterwards (star plus planets, ids distinct, none shared with the background); nothing from earlier calls is left over |
| SingleSystemFacts.FirstGenerationScene | exoplanets-exploration/js/main.js:54-61 | the first generation after page load leaves exactly the universe sphere, the star and its planets in the scene |
| SingleSystem.Orbit | exoplanets-exploration/js/main.js:279-286 | the angle grows by 0.005, the rest of the metadata and the planet's id, size and texture are kept, and the planet lands at y = 0 |
| SingleSystem.Animate | exoplanets-exploration/js/main.js:270-288 | the scene rotates by 0.001 exactly when rotation is on; the scene graph, the info and the star are kept, and the planet count is unchanged |
| SingleSystem.OrbitAll | exoplanets-exploration/js/main.js:278-287 | every planet of the list gets its orbit update and the list keeps its length and order |
| SingleSystemFacts.AnimateEffect | exoplanets-exploration/js/main.js:270-288 | one frame adds 0.005 to every planet's angle and keeps its distance; it puts the planet on its x-z circle around the star with y = 0; it leaves the star, the planet list, the scene and the info untouched; it rotates the scene by 0.001 exactly when rotation is on |
| SingleSystemFacts.AnimateFramesEffect | exoplanets-exploration/js/main.js:270-288 | after `n` frames every planet's angle has grown by exactly `n` steps; its distance, metadata, id and size are unchanged, and the scene still holds exactly the background and the current system |
| SingleSystem.ToggleRotation | exoplanets-exploration/js/main.js:113-118 | the rotation flag flips and nothing else changes |
| SingleSystemFacts.ToggleTwiceRestores | exoplanets-exploration/js/main.js:113-118 | pressing the button twice restores the state |
| SingleSystem.PickCandidates | exoplanets-exploration/js/main.js:90-92 | the ray caster is offered the current system's planets, or nothing when there is none |
| SingleSystem.Click | exoplanets-exploration/js/main.js:86-97 | a miss changes nothing; a hit shows the nearest hit's data; a changed card always belongs to a planet of the current system |
| SingleSystemFacts.ClickWithoutSystemIsNoOp | exoplanets-exploration/js/main.js:86-97 | before any system is shown, a click changes nothing |
| SingleSystemFacts.TwoStarScenario | exoplanets-exploration/js/main.js:149-224 | with records of stars 1, 1, 2 and a selection draw below 1/2, star 1's two planets are shown on orbits 10 and 15 |
| Navigation.PlaceStars | exoplanets-exploration/main.js:53-86 | star `j` gets id 1 + 2j and its three draws, its glow id 2 + 2j and the star's position; the scene holds exactly the universe, the stars and the glows |
| Navigation.FieldCoordinate | exoplanets-exploration/main.js:66-68 | `(r - 0.5) * 200` maps a draw in [0, 1) into [-100, 100), negative exactly when the draw is below 1/2 |
| Navigation.Init | exoplanets-exploration/main.js:23-86 | 100 stars with ids 1, 3, 5, … at their three draws, no planets yet, each followed by a glow at its position; the universe comes first; the camera is at (0, 0, 50); controls off, unfocused, rotation off; every star inside the [-100, 100) cube when the draws are in [0, 1); the scene is consistent |
| Navigation.PlanetsOf | exoplanets-exploration/main.js:210 | a star's planet list, empty when it has never been reached |
| Navigation.DisplayPlanets | exoplanets-exploration/main.js:205-236 | only the scene, the stars and the info change; the prompt is shown; the star list keeps its length; the star now holds exactly five planets; five ids are handed out |
| Navigation.RemoveAll | exoplanets-exploration/main.js:210 | the scene only loses objects, one call is logged per planet, and no id is handed out |
| Navigation.OrbitingPlanet | exoplanets-exploration/main.js:216-228 | the planet constructor builds planet `i` on the mesh it is given |
| NavigationFacts.DisplayPlanetsShape | exoplanets-exploration/main.js:205-232 | reaching a star gives it exactly five new planets, built in order from the next five ids and labelled "Planeta 1" to "Planeta 5"; every other star is untouched; the planets prompt is shown; nothing else changes |
| NavigationFacts.PlanetLabels | exoplanets-exploration/main.js:228 | the labels are "Planeta 1" … "Planeta 5" and "Este é o planeta 1." … |
| NavigationFacts.DisplayPlanetsScene | exoplanets-exploration/main.js:209-231 | the star's previous planets leave the scene and the five new ones enter it; the log gains one removal per previous planet, then one addition per new one, and no dispose call |
| NavigationFacts.RemoveAllEffect | exoplanets-exploration/main.js:210 | removing a planet list takes exactly those ids out of the scene and logs one removal each, in order |
| NavigationFacts.CreatePlanetsList | exoplanets-exploration/main.js:214-232 | the loop builds planets `i` … 4 in order, planet `i + j` on the `j`-th next mesh id, and pushes nothing else |
| NavigationFacts.CreatedIds | exoplanets-exploration/main.js:214-232 | with a constructor that builds each planet on the mesh it is given, the ids of the five pushed planets are exactly the five fresh mesh ids |
| NavigationFacts.CreatePlanetsScene | exoplanets-exploration/main.js:214-232 | the loop adds one fresh id per planet and removes nothing |
| NavigationFacts.DisplayedPlanetGeometry | exoplanets-exploration/main.js:221-226 | planet `i` orbits at a distance in [5, 10), lies at exactly that distance from the star in the x-y plane, and its z is within [-2, 3) of the star's |
| NavigationFacts.DisplayPlanetsConsistent | exoplanets-exploration/main.js:205-232 | reaching a star keeps the scene holding exactly the universe, stars, glows and current planets, with planet lists pairwise disjoint |
| NavigationFacts.CandidatesInScene | exoplanets-exploration/main.js:247 | in a consistent state every pick candidate is an object of the scene |
| NavigationFacts.ReachedStarPicking | exoplanets-exploration/main.js:209-231 | after reaching a star, its new planets and every other star's planets are pickable and in the scene, and its previous planets are neither |
| Navigation.PlanetCandidates | exoplanets-exploration/main.js:247 | a planet is a candidate exactly when it belongs to some star's list |
| Navigation.Advance | exoplanets-exploration/main.js:148-152 | a frame in flight adds one to the frame count and moves only the camera and its aim |
| Navigation.Frame | exoplanets-exploration/main.js:146-162 | the transition continues exactly while fewer than 50 frames have run; before completion only the camera and its aim change; on completion of a flight back the camera is at (0, 0, 50) with controls off and unfocused |
| Navigation.Settle | exoplanets-exploration/main.js:154-198 | on completion the camera stays put; an approach enables the controls, targets the star, sets focus and gives the star five planets; a retreat disables the controls and focus and leaves the stars and the scene alone |
| Navigation.RunFrames | exoplanets-exploration/main.js:146-162 | any number of frames keeps a running transition within its 50 frames and its star in range, and keeps the star list's length |
| NavigationFacts.FramePreservesConsistent | exoplanets-exploration/main.js:180-199 | a frame keeps the scene consistent, also the one that reaches a star |
| NavigationFacts.ApproachInFlight | exoplanets-exploration/main.js:180-191 | during the flight to a star the camera is at progress (k + n) / 50 on the fixed path, aimed at the star, and nothing else changes |
| NavigationFacts.ApproachSettles | exoplanets-exploration/main.js:189-198 | the frame that completes the flight puts the camera on its end pose, enables the controls, targets the star, sets focus and displays the planets |
| NavigationFacts.RetreatInFlight | exoplanets-exploration/main.js:146-156 | during the flight back the camera is at progress (k + n) / 50 towards (0, 0, 50), aimed at the origin, and nothing else changes |
| NavigationFacts.RetreatSettles | exoplanets-exploration/main.js:154-161 | the frame that completes the flight back puts the camera at (0, 0, 50) and disables the controls and focus |
| Navigation.MoveToStar | exoplanets-exploration/main.js:168-202 | the handler runs frame 1 of the flight from the current camera to the end pose and leaves the loop pending |
| NavigationFacts.MoveToStarCompletes | exoplanets-exploration/main.js:168-202 | during the next 48 frames controls and focus stay as they were; after 49 more frames the flight is over, the camera is at the end pose, the controls are on and target the star, the view is focused and the planets are displayed |
| Navigation.ExitZoom | exoplanets-exploration/main.js:141-165 | the handler runs frame 1 of the flight back to (0, 0, 50) and leaves the loop pending |
| NavigationFacts.ExitZoomCompletes | exoplanets-exploration/main.js:141-165 | during the next 48 frames nothing but the camera changes; after 49 more the camera is at (0, 0, 50) aimed at the origin, controls off and unfocused |
| NavigationFacts.EndPoseAtSafeDistance | exoplanets-exploration/main.js:170-178 | for a camera away from the star, the end pose lies on the star-to-camera ray at distance exactly 5 from the star |
| NavigationFacts.EndPoseAtCoincidentCamera | exoplanets-exploration/main.js:177-178 | a camera already at the star's centre has the zero direction, so its end pose is the star's centre |
| Navigation.StarClick | exoplanets-exploration/main.js:102-115 | a miss does nothing; a hit starts the flight to the nearest hit from the current camera, whatever the focus flag says |
| NavigationFacts.StarClickHasNoGuard | exoplanets-exploration/main.js:102-115 | the flight a star click starts does not depend on focus or controls |
| NavigationFacts.StarClickKeepsConsistent | exoplanets-exploration/main.js:102-115 | a star click keeps the scene consistent and starts a flight that `Frame` can run |
| Navigation.KeyDown | exoplanets-exploration/main.js:124-130 | Escape starts the flight back from the current camera; any other key does nothing |
| NavigationFacts.EscapeHasNoGuard | exoplanets-exploration/main.js:124-130 | the flight back Escape starts does not depend on focus or controls |
| NavigationFacts.KeyDownKeepsConsistent | exoplanets-exploration/main.js:124-130 | a key press keeps the scene consistent and starts a flight that `Frame` can run |
| Navigation.PlanetClick | exoplanets-exploration/main.js:239-259 | a miss changes nothing; a hit shows the nearest planet's name and info |
| Navigation.DeviceX | exoplanets-exploration/main.js:93 | a pointer inside the window maps into [-1, 1] |
| Navigation.DeviceY | exoplanets-exploration/main.js:94 | a pointer inside the window maps into [-1, 1], upwards positive |
| Navigation.MouseMove | exoplanets-exploration/main.js:89-99 | while focused the pointer does nothing; otherwise only the universe's two rotations change, each within ±0.05 for a pointer inside the window |
| Navigation.AnimateFrame | exoplanets-exploration/main.js:264-278 | the scene rotates exactly when rotation is on and the view is unfocused, never backwards, and nothing else changes |
| Navigation.ToggleRotation | exoplanets-exploration/main.js:133-138 | the rotation flag flips and nothing else changes |
| NavigationFacts.ViewHandlersKeepConsistent | exoplanets-exploration/main.js:89-99 | planet picks, pointer moves, animation frames and the rotation button keep the scene consistent |
| NavigationFacts.RunPreservesConsistent | exoplanets-exploration/main.js:146-162 | any number of frames of a running transition keeps the scene consistent |
| NavigationFacts.FocusThenExit | exoplanets-exploration/main.js:141-202 | flying to a star and then pressing Escape ends with the camera back at (0, 0, 50) aimed at the origin, unfocused and with controls off; the controls target stays at the star, and the star's five planets stay pickable and in the scene |

## Left out

- Rendering, textures, materials' parameters, lights (`js/main.js` lines 63-70, `main.js` lines 261-262), the renderer and window resizing: they do not affect the modelled state.
- The ray caster: handlers take its hits (nearest first, each one of the offered candidates) as a parameter.
- The `fetch` of the data file and its error path: the records are a parameter, and the `catch` only logs.
- The DOM text beyond what the info panel shows, and the buttons' labels.
- `main.js` line 235 registers `onPlanetClick` again on every arrival. The browser ignores a repeated registration of the same function, so it is modelled as a single planet-click handler.
- Both viewers register their star/planet click handlers on the window. How the browser interleaves handlers of one click, and concurrent `requestAnimationFrame` loops (two flights started before the first ends), are not modelled. `RunFrames` runs one loop at a time.
- OrbitControls dragging and damping: only `enabled` and `target` are kept.
- Floating point: arithmetic is on exact reals, and `cos`, `sin` and `sqrt` are host functions with their laws as preconditions.
- `kepid` values of 2^32 - 1 and above, which JavaScript orders by insertion rather than numerically, and non-numeric or missing `kepid`: a `kepid` is a `nat`.
- A `koi_teq` of `NaN` or a non-number: a temperature is an optional real.
- SingleSystem.GenerateRandomStarSystem: requires non-empty data, because the source dereferences an undefined group (after adding the new star) when the data is empty.
- SingleSystem.ChosenGroup: requires non-empty data for the same reason.
- Navigation.DeviceX: requires a window of positive width. A zero-size window divides by zero in the source.
- Navigation.DeviceY: requires a window of positive height. A zero-size window divides by zero in the source, giving NaN or an infinity.
- Navigation.MouseMove: requires a window of positive width and height, for the same reason as `DeviceX` and `DeviceY`.
- NavigationFacts.EndPoseAtSafeDistance: requires a positive squared camera-to-star distance and a sound `sqrt` there, rather than only `camera != target`.
- NavigationFacts.EndPoseAtCoincidentCamera: requires `sqrt(0) == 0`, which the host guarantees.
- NavigationFacts.DisplayedPlanetGeometry: requires `cos² + sin² = 1` at the planet's angle and draws in [0, 1), as the host guarantees.
- The cypress tests only load the page and fetch the data file, and state nothing about the model.
