/** The pull selector `pull_object_piped` (src/pull_object.rs): among the
    colliders overlapping a box around the actor, pick the nearest dynamic
    body inside the aim cone whose line of sight is not blocked. */
module Pull {
  import opened Common
  import Actor

  /** Where a body is, relative to the actor: its kind, its distance from the
      actor and the dot product of the unit line of sight with the actor's
      forward axis. */
  datatype Body = Body(kind: RigidBody, dist: real, dot: real)

  /** The ray cast from the actor toward `toward` to test occlusion. */
  datatype RayQuery = RayQuery(toward: Entity, maxDistance: real, solid: bool, filter: Filter)

  /** The box-overlap query around the actor. */
  datatype BoxQuery = BoxQuery(side: real, filter: Filter)

  /** The physics world as the selector sees it: the collider-to-body map,
      each body's kind and geometry, and the engine's query answers. */
  datatype World = World(
    parentOf: map<Entity, Entity>,
    bodies: map<Entity, Body>,
    overlaps: BoxQuery -> seq<Entity>,
    firstHit: RayQuery -> Option<Entity>)

  /** The query set-up: the filter shared by the box query and every
      occlusion ray, the initial search bound and the box edge. */
  datatype Setup = Setup(filter: Filter, bound: real, boxSide: real)

  /** `with_excluded_entities`: the configured filter, excluding the given entities. */
  function ExcludeEntities(f: Filter, entities: seq<Entity>): (r: Filter)
    ensures r.mask == f.mask
    ensures forall e :: e in entities ==> e in r.excluded
  {
    Filter(f.mask, set e | e in entities)
  }

  function PullSetup(config: Actor.Config, actorColliders: seq<Entity>): (s: Setup)
    ensures s.bound == config.traceLength + 1.0
    ensures s.boxSide == 2.0 * s.bound
    ensures s.filter.mask == config.spatialQueryFilter.mask
    ensures forall c :: c in actorColliders ==> c in s.filter.excluded
  {
    var bound := config.traceLength + 1.0;
    Setup(ExcludeEntities(config.spatialQueryFilter, actorColliders), bound, 2.0 * bound)
  }

  /** The colliders the box query reports. */
  function Colliders(config: Actor.Config, actorColliders: seq<Entity>, w: World): seq<Entity> {
    var s := PullSetup(config, actorColliders);
    w.overlaps(BoxQuery(s.boxSide, s.filter))
  }

  /** Collider `c` resolves to a body, as the source's `expect`s demand;
      a dynamic body must be at non-zero distance to be normalised. */
  predicate Resolves(w: World, c: Entity) {
    c in w.parentOf && w.parentOf[c] in w.bodies &&
    (w.bodies[w.parentOf[c]].kind == Dynamic ==> w.bodies[w.parentOf[c]].dist > 0.0)
  }

  /** Body `e` passes every filter but distance: dynamic, strictly inside
      the cone, and the occlusion ray's first hit is `e` itself. */
  predicate Visible(config: Actor.Config, s: Setup, w: World, e: Entity)
    requires e in w.bodies
  {
    var b := w.bodies[e];
    b.kind == Dynamic && b.dot > config.cone && w.firstHit(RayQuery(e, b.dist, true, s.filter)) == Some(e)
  }

  /** Collider `c` leads to an acceptable body within the search bound. */
  predicate Eligible(config: Actor.Config, s: Setup, w: World, c: Entity)
    requires Resolves(w, c)
  {
    Visible(config, s, w, w.parentOf[c]) && w.bodies[w.parentOf[c]].dist < s.bound
  }

  /** The loop's accumulators `nearest_dist` and `nearest_entity`. */
  datatype Nearest = Nearest(dist: real, entity: Option<Entity>)

  /** One loop iteration over collider `c`. */
  function Step(config: Actor.Config, s: Setup, w: World, acc: Nearest, c: Entity): (next: Nearest)
    requires Resolves(w, c)
    // `nearest_dist` never increases
    ensures next.dist <= acc.dist
    // it strictly decreases exactly for a visible body closer than the best so far, which then becomes the best
    ensures next.dist < acc.dist <==> Visible(config, s, w, w.parentOf[c]) && w.bodies[w.parentOf[c]].dist < acc.dist
    ensures next.dist < acc.dist ==> next == Nearest(w.bodies[w.parentOf[c]].dist, Some(w.parentOf[c]))
    ensures next.dist == acc.dist ==> next == acc
  {
    var e := w.parentOf[c];
    var b := w.bodies[e];
    if b.kind != Dynamic then acc
    else if b.dist >= acc.dist then acc
    else if b.dot <= config.cone then acc
    else match w.firstHit(RayQuery(e, b.dist, true, s.filter))
      case Some(hit) => if hit == e then Nearest(b.dist, Some(e)) else acc
      case None => acc
  }

  /** `pull_object_piped`, returning the selected body (the source only logs it)
      and the final `nearest_dist`. */
  method PullObjectPiped(config: Actor.Config, actorColliders: seq<Entity>, w: World)
    returns (nearest: Option<Entity>, nearestDist: real)
    requires forall c :: c in Colliders(config, actorColliders, w) ==> Resolves(w, c)
    ensures nearestDist <= config.traceLength + 1.0
    // nothing is selected exactly when no collider is eligible
    ensures nearest.None? <==>
      forall i :: 0 <= i < |Colliders(config, actorColliders, w)| ==>
        !Eligible(config, PullSetup(config, actorColliders), w, Colliders(config, actorColliders, w)[i])
    ensures nearest.None? ==> nearestDist == config.traceLength + 1.0
    // the selection is the first eligible collider's body at minimal distance
    ensures nearest.Some? ==>
      var s, cs := PullSetup(config, actorColliders), Colliders(config, actorColliders, w);
      exists i :: 0 <= i < |cs| && Eligible(config, s, w, cs[i]) &&
        w.parentOf[cs[i]] == nearest.value && w.bodies[nearest.value].dist == nearestDist &&
        (forall j :: 0 <= j < |cs| && Eligible(config, s, w, cs[j]) ==> nearestDist <= w.bodies[w.parentOf[cs[j]]].dist) &&
        (forall j :: 0 <= j < i && Eligible(config, s, w, cs[j]) ==> nearestDist < w.bodies[w.parentOf[cs[j]]].dist)
  {
    var s := PullSetup(config, actorColliders);
    var cs := Colliders(config, actorColliders, w);
    var acc := Nearest(s.bound, None);
    var k := 0;
    while k < |cs|
      invariant 0 <= k <= |cs|
      invariant forall j :: 0 <= j < |cs| ==> Resolves(w, cs[j])
      invariant acc.dist <= s.bound
      invariant forall j :: 0 <= j < k && Eligible(config, s, w, cs[j]) ==> acc.dist <= w.bodies[w.parentOf[cs[j]]].dist
      invariant acc.entity.None? ==> acc.dist == s.bound && forall j :: 0 <= j < k ==> !Eligible(config, s, w, cs[j])
      invariant acc.entity.Some? ==>
        exists i :: 0 <= i < k && Eligible(config, s, w, cs[i]) &&
          w.parentOf[cs[i]] == acc.entity.value && w.bodies[acc.entity.value].dist == acc.dist &&
          (forall j :: 0 <= j < i && Eligible(config, s, w, cs[j]) ==> acc.dist < w.bodies[w.parentOf[cs[j]]].dist)
    {
      acc := Step(config, s, w, acc, cs[k]);
      k := k + 1;
    }
    nearest, nearestDist := acc.entity, acc.dist;
  }
}
