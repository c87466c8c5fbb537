/** The aim probe `find_prop_in_trace` (src/interaction/pull/find_in_trace.rs):
    a thin ray against the prop filter, and only when that misses, a 2 cm
    cuboid cast; each prop hit is paired with an obstacle cast used to decide
    occlusion. The physics engine is the oracle `cast`. */
module Probe {
  import opened Common
  import Actor

  /** Half the edge of the cuboid cast in the second phase. */
  const HalfExtent: real := 0.01

  /** What is cast: a ray (with its `solid` flag) or a cuboid of the given edge. */
  datatype CastShape = Ray(solid: bool) | Cuboid(side: real)

  /** One query to the physics engine. */
  datatype Cast = Cast(shape: CastShape, maxDistance: real, filter: Filter)

  /** `Prop { entity, toi }`: the probe's answer. */
  datatype PropHit = PropHit(entity: Entity, toi: real)

  /** The probe's answer together with the casts it issued, in order. */
  datatype Trace = Trace(result: Option<PropHit>, casts: seq<Cast>)

  /** The cuboid that stands in for an AABB cast. */
  const Box: CastShape := Cuboid(2.0 * HalfExtent)

  function RayProp(config: Actor.Config): Cast {
    Cast(Ray(true), config.interactionDistance, config.propFilter)
  }

  function RayObstacle(config: Actor.Config): Cast {
    Cast(Ray(true), config.interactionDistance, config.obstacleFilter)
  }

  function BoxProp(config: Actor.Config): Cast {
    Cast(Box, config.interactionDistance, config.propFilter)
  }

  function BoxObstacle(config: Actor.Config): Cast {
    Cast(Box, config.interactionDistance, config.obstacleFilter)
  }

  /** A prop hit is occluded when the obstacle cast hit some other entity no
      farther away; a tie counts as occluded. */
  predicate Occluded(propHit: Hit, obstacle: Option<Hit>) {
    obstacle.Some? && obstacle.value.entity != propHit.entity && obstacle.value.distance <= propHit.distance
  }

  /** `hit.filter(|hit| !occluded)`. */
  function Unoccluded(hit: Option<Hit>, obstacle: Option<Hit>): (r: Option<Hit>)
    ensures r.Some? <==> hit.Some? && !Occluded(hit.value, obstacle)
    ensures r.Some? ==> r == hit
    // An obstacle on another entity at exactly the prop's distance occludes it.
    ensures hit.Some? && obstacle.Some? && obstacle.value.entity != hit.value.entity ==>
      (r.Some? <==> obstacle.value.distance > hit.value.distance)
  {
    if hit.Some? && !Occluded(hit.value, obstacle) then hit else None
  }

  function ToProp(hit: Hit): PropHit {
    PropHit(hit.entity, hit.distance)
  }

  /** The cuboid phase, run only after the ray missed. */
  function BoxPhase(config: Actor.Config, cast: Cast -> Option<Hit>): (t: Trace)
    ensures |t.casts| >= 1 && t.casts[0] == BoxProp(config)
    ensures t.result.Some? <==> cast(BoxProp(config)).Some? && !Occluded(cast(BoxProp(config)).value, cast(BoxObstacle(config)))
    ensures t.result.Some? ==> t.result.value == ToProp(cast(BoxProp(config)).value)
    ensures forall i :: 0 <= i < |t.casts| ==> t.casts[i].shape == Box && t.casts[i].maxDistance == config.interactionDistance
  {
    var hit := cast(BoxProp(config));
    if hit.None? then
      Trace(None, [BoxProp(config)])
    else
      var kept := Unoccluded(hit, cast(BoxObstacle(config)));
      Trace(if kept.Some? then Some(ToProp(kept.value)) else None, [BoxProp(config), BoxObstacle(config)])
  }

  /** `find_prop_in_trace` as written: the occlusion verdict of the ray phase
      is computed and then discarded, so a ray hit is returned even when an
      obstacle is in front of it. */
  function FindPropInTrace(config: Actor.Config, cast: Cast -> Option<Hit>): (t: Trace)
    // Every cast reaches exactly the configured interaction distance.
    ensures |t.casts| >= 2 && t.casts[0] == RayProp(config)
    ensures forall i :: 0 <= i < |t.casts| ==> t.casts[i].maxDistance == config.interactionDistance
    // A ray hit is returned unchanged, whatever the obstacle ray says.
    ensures cast(RayProp(config)).Some? ==>
      t.result == Some(ToProp(cast(RayProp(config)).value)) && t.casts == [RayProp(config), RayObstacle(config)]
    // The cuboid casts are issued exactly when the ray missed.
    ensures (exists i :: 0 <= i < |t.casts| && t.casts[i].shape == Box) <==> cast(RayProp(config)).None?
    // After a miss, the cuboid prop hit is returned exactly when it is not occluded.
    ensures cast(RayProp(config)).None? ==>
      (t.result.Some? <==> cast(BoxProp(config)).Some? && !Occluded(cast(BoxProp(config)).value, cast(BoxObstacle(config))))
    ensures cast(RayProp(config)).None? && t.result.Some? ==> t.result.value == ToProp(cast(BoxProp(config)).value)
    // Nothing is found exactly when the ray missed and the cuboid missed or was occluded.
    ensures t.result.None? <==>
      cast(RayProp(config)).None? &&
      (cast(BoxProp(config)).None? || Occluded(cast(BoxProp(config)).value, cast(BoxObstacle(config))))
  {
    var hit := cast(RayProp(config));
    if hit.Some? then
      Trace(Some(ToProp(hit.value)), [RayProp(config), RayObstacle(config)])
    else
      var box := BoxPhase(config, cast);
      assert forall i :: 0 <= i < |box.casts| ==> box.casts[i] == ([RayProp(config)] + box.casts)[i + 1];
      Trace(box.result, [RayProp(config)] + box.casts)
  }

  /** The evidently intended probe: an occluded ray hit is dropped and the
      cuboid phase gets its turn. */
  function FindPropInTraceIntended(config: Actor.Config, cast: Cast -> Option<Hit>): (t: Trace)
    ensures |t.casts| >= 1 && t.casts[0] == RayProp(config)
    ensures forall i :: 0 <= i < |t.casts| ==> t.casts[i].maxDistance == config.interactionDistance
    // An unoccluded ray hit is returned and the cuboid is never cast.
    ensures Unoccluded(cast(RayProp(config)), cast(RayObstacle(config))).Some? ==>
      t.result == Some(ToProp(cast(RayProp(config)).value)) && t.casts == [RayProp(config), RayObstacle(config)]
    // A ray miss or an occluded ray hit hands over to the cuboid phase.
    ensures Unoccluded(cast(RayProp(config)), cast(RayObstacle(config))).None? ==>
      (exists i :: 0 <= i < |t.casts| && t.casts[i].shape == Box) &&
      (t.result.Some? <==> cast(BoxProp(config)).Some? && !Occluded(cast(BoxProp(config)).value, cast(BoxObstacle(config))))
    // Whatever is returned came from a cast that was not occluded.
    ensures t.result.Some? ==>
      (Unoccluded(cast(RayProp(config)), cast(RayObstacle(config))).Some? && t.result.value == ToProp(cast(RayProp(config)).value)) ||
      (Unoccluded(cast(BoxProp(config)), cast(BoxObstacle(config))).Some? && t.result.value == ToProp(cast(BoxProp(config)).value))
  {
    var hit := Unoccluded(cast(RayProp(config)), cast(RayObstacle(config)));
    var rayCasts := if cast(RayProp(config)).Some? then [RayProp(config), RayObstacle(config)] else [RayProp(config)];
    if hit.Some? then
      Trace(Some(ToProp(hit.value)), rayCasts)
    else
      var box := BoxPhase(config, cast);
      assert forall i :: 0 <= i < |box.casts| ==> box.casts[i] == (rayCasts + box.casts)[|rayCasts| + i];
      Trace(box.result, rayCasts + box.casts)
  }
}

module ProbeFacts {
  import opened Common
  import Actor
  import opened Probe

  /** With the obstacle on another entity, a cuboid prop hit is reported
      exactly when the obstacle is strictly farther; equal distance occludes. */
  lemma BoxHitReportedIffObstacleFarther(config: Actor.Config, cast: Cast -> Option<Hit>)
    requires cast(RayProp(config)).None?
    requires cast(BoxProp(config)).Some? && cast(BoxObstacle(config)).Some?
    requires cast(BoxObstacle(config)).value.entity != cast(BoxProp(config)).value.entity
    ensures FindPropInTrace(config, cast).result.Some? <==>
      cast(BoxObstacle(config)).value.distance > cast(BoxProp(config)).value.distance
  {
  }

  /** A missing obstacle hit, or an obstacle hit on the prop itself, never occludes. */
  lemma BoxHitKeptWithoutForeignObstacle(config: Actor.Config, cast: Cast -> Option<Hit>)
    requires cast(RayProp(config)).None? && cast(BoxProp(config)).Some?
    requires cast(BoxObstacle(config)).None? || cast(BoxObstacle(config)).value.entity == cast(BoxProp(config)).value.entity
    ensures FindPropInTrace(config, cast).result == Some(ToProp(cast(BoxProp(config)).value))
  {
  }

  /** The source's defect: a ray hit with an obstacle in front of it is still
      returned, while the intended probe drops it and casts the cuboid. */
  lemma OccludedRayHitIsReturned(config: Actor.Config, cast: Cast -> Option<Hit>)
    requires cast(RayProp(config)).Some?
    requires Occluded(cast(RayProp(config)).value, cast(RayObstacle(config)))
    ensures FindPropInTrace(config, cast).result == Some(ToProp(cast(RayProp(config)).value))
    ensures BoxProp(config) !in FindPropInTrace(config, cast).casts
    ensures BoxProp(config) in FindPropInTraceIntended(config, cast).casts
  {
  }

  /** Wherever the ray hit is not occluded, the source and the intended probe agree. */
  lemma IntendedAgreesUnlessRayOccluded(config: Actor.Config, cast: Cast -> Option<Hit>)
    requires cast(RayProp(config)).None? || !Occluded(cast(RayProp(config)).value, cast(RayObstacle(config)))
    ensures FindPropInTraceIntended(config, cast).result == FindPropInTrace(config, cast).result
  {
  }
}
