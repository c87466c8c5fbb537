/** Shared vocabulary of the pickup model: entities, optional values, and the
    answers the physics engine gives to spatial queries. The engine itself is
    never modelled; its answers are inputs. */
module Common {

  /** An ECS entity id. */
  type Entity = nat

  datatype Option<+T> = None | Some(value: T)

  /** A 3-vector of reals (linear or angular velocity). */
  datatype Vec3 = Vec3(x: real, y: real, z: real)

  const Zero: Vec3 := Vec3(0.0, 0.0, 0.0)

  /** A quaternion, carried around but never computed with. */
  datatype Quat = Quat(x: real, y: real, z: real, w: real)

  /** The nearest hit of a ray or shape cast: which entity, and how far along the cast. */
  datatype Hit = Hit(entity: Entity, distance: real)

  /** A spatial query filter: an opaque collision-layer mask plus excluded entities. */
  datatype Filter = Filter(mask: nat, excluded: set<Entity>)

  /** The kind of a rigid body. */
  datatype RigidBody = Dynamic | Static | Kinematic

  /** An inclusive range `start..=end` of scalars. */
  datatype Range = Range(start: real, end: real)
  {
    predicate Contains(x: real) {
      start <= x <= end
    }
  }
}
