/**
 The part of a three.js scene graph the viewer relies on: which objects are
 children of the scene, and the order in which objects were added, removed and
 had their GPU resources released. Objects are known by an identity drawn from
 a counter when the mesh is constructed.
 */
module SceneGraph {

  type Id = nat

  /** One call made on the scene or on a mesh's resources. */
  datatype SceneEvent =
    | Added(id: Id)
    | Removed(id: Id)
    | GeometryDisposed(id: Id)
    | MaterialDisposed(id: Id)

  datatype Scene = Scene(members: set<Id>, log: seq<SceneEvent>, nextId: Id)

  const EmptyScene: Scene := Scene({}, [], 0)

  /** Every object in the scene was constructed earlier, so its id is below the counter. */
  predicate MembersAllocated(s: Scene)
  {
    forall id | id in s.members :: id < s.nextId
  }

  /** Constructing a mesh: a fresh identity, not yet in the scene. */
  function NewMesh(s: Scene): (r: (Scene, Id))
    ensures r.1 == s.nextId && r.0.nextId == s.nextId + 1
    ensures r.0.members == s.members && r.0.log == s.log
  {
    (s.(nextId := s.nextId + 1), s.nextId)
  }

  /** `scene.add(object)`. */
  function Add(s: Scene, id: Id): (r: Scene)
    ensures r.members == s.members + {id}
    ensures r.log == s.log + [Added(id)]
    ensures r.nextId == s.nextId
  {
    Scene(s.members + {id}, s.log + [Added(id)], s.nextId)
  }

  /** `scene.remove(object)`; removing an object that is not a child changes nothing but the log. */
  function Remove(s: Scene, id: Id): (r: Scene)
    ensures r.members == s.members - {id}
    ensures r.log == s.log + [Removed(id)]
    ensures r.nextId == s.nextId
  {
    Scene(s.members - {id}, s.log + [Removed(id)], s.nextId)
  }

  /** `mesh.geometry.dispose()` followed by `mesh.material.dispose()`. */
  function Dispose(s: Scene, id: Id): (r: Scene)
    ensures r.members == s.members && r.nextId == s.nextId
    ensures r.log == s.log + [GeometryDisposed(id), MaterialDisposed(id)]
  {
    s.(log := s.log + [GeometryDisposed(id), MaterialDisposed(id)])
  }

  /** The object was taken out of the scene and both of its resources were released. */
  predicate Released(events: seq<SceneEvent>, id: Id)
  {
    Removed(id) in events && GeometryDisposed(id) in events && MaterialDisposed(id) in events
  }

  /** Every object of `previous` was fully released before the first object was added. */
  predicate ReleasedBeforeAnyAdd(events: seq<SceneEvent>, previous: set<Id>)
  {
    forall j | 0 <= j < |events| && events[j].Added? ::
      forall id | id in previous :: Released(events[..j], id)
  }

  /** No resource was released in `events`. */
  predicate NothingDisposed(events: seq<SceneEvent>)
  {
    forall j | 0 <= j < |events| :: events[j].Added? || events[j].Removed?
  }
}
