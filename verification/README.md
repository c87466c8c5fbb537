# Avian Pickup core, modelled in Dafny

This project models the decision core of Avian Pickup, a Bevy/Avian plugin that lets a
first-person actor pick up, carry, drop and throw dynamic rigid bodies ("props"), in the
style of the gravity gun of early-2000s physics games. The modelled core has four decision
procedures and the prop data they use:

- **Aim probe** (`find_prop_in_trace`). A thin ray is cast against the prop filter. Only when it
  misses is a 2 cm cuboid cast instead. Each prop hit is paired with an obstacle cast that
  decides occlusion. Module `Probe`, with lemmas in `ProbeFacts`.
- **Pull selector** (`pull_object_piped`). Among the colliders overlapping a box around the
  actor, it picks the nearest dynamic body that is strictly inside the aim cone and whose line
  of sight is unblocked. Module `Pull`.
- **Input dispatcher** (`usher_event`). It validates the target entity, then maps an input event
  and whether the actor is holding something to Throw, Drop, a `PullObject` trigger, or nothing.
  Module `Event`.
- **Drop handler** (`drop`). Every actor with a `Dropping(prop)` verb returns to idle. Its prop
  loses the `HeldProp` marker. When the `NonPickupMass` cache is present, the prop gets back its
  pre-pickup mass from it and its motion is stopped; when it is absent, an error is logged and
  mass and velocities are left as they were. Module `Drop`.
- **Prop components** (`prop.rs`). These are the override components and their defaults, the
  `NonPickupMass` cache, `HeldProp` and `PrePickupRotation`. Module `Prop`.

The physics engine is never modelled. Each of its answers is an input:

- Ray and shape casts are an oracle function from the query (shape, maximum distance, filter)
  to an optional nearest hit.
- The box-overlap query is an oracle from the query to a sequence of colliders.
- Each body's position relative to the actor is given as precomputed scalars: its distance and
  the dot product of the line of sight with the actor's forward axis.

Modelling the queries as arguments lets the contracts state which casts are issued, and with
which distance, shape and filter. `Common` holds the shared vocabulary. `Actor` holds the few
fields of `AvianPickupActor`, `AvianPickupActorState` and `Cooldown` that the core reads; the
files defining those types are not part of this model.

Three points of the code that a reader might not expect, and which the model follows:

- The ray branch computes an occlusion verdict (src/interaction/pull/find_in_trace.rs:21-35) and
  drops it: line 37 matches on the unfiltered ray hit. The cuboid branch applies the same
  occlusion filter and uses its result (src/interaction/pull/find_in_trace.rs:58-79). See Findings.
- The pull query box has full side `2 * (trace_length + 1)` (src/pull_object.rs:38-39).
- The pull selector only logs its result (src/pull_object.rs:85). The model returns it.

## Model

| member | source | states |
|---|---|---|
| Prop.DefaultPitchRangeOverride | src/prop.rs:64-68 | the default pitch-range override is the actor default's hold pitch range |
| Prop.DefaultPreferredDistanceOverride | src/prop.rs:81-85 | the default preferred-distance override is the actor default's preferred hold distance |
| Prop.DefaultPickupMassOverride | src/prop.rs:98-102 | the default pickup-mass override is the actor default's temporary prop mass |
| Prop.DefaultThrownLinearSpeedOverride | src/prop.rs:115-119 | the default thrown linear speed is the upper end of the actor default's linear speed range: it lies in that range when the range is non-empty, and no speed in the range exceeds it |
| Prop.DefaultThrownAngularSpeedOverride | src/prop.rs:132-136 | the same for the angular speed range |
| Probe.Unoccluded | src/interaction/pull/find_in_trace.rs:21-35 | the filter keeps a prop hit exactly when no obstacle hit on another entity lies at or before it, so an obstacle on another entity at exactly the prop's distance occludes; a kept hit is unchanged |
| Probe.BoxPhase | src/interaction/pull/find_in_trace.rs:43-80 | the cuboid phase casts the 0.02-edge cuboid, to the interaction distance, first against the prop filter; it returns the prop hit exactly when that hit exists and is not occluded by the obstacle cast |
| Probe.FindPropInTrace | src/interaction/pull/find_in_trace.rs:5-81 | every cast reaches exactly the interaction distance; a ray hit is returned as `Prop{entity, toi}` whatever the obstacle ray says; cuboid casts are issued exactly when the ray missed; the result is empty exactly when the ray missed and the cuboid hit is missing or occluded |
| Probe.FindPropInTraceIntended | src/interaction/pull/find_in_trace.rs:21-42 | corrected probe: an unoccluded ray hit is returned without casting the cuboid; a missed or occluded ray hands over to the cuboid phase; anything returned came from an unoccluded cast |
| ProbeFacts.BoxHitReportedIffObstacleFarther | src/interaction/pull/find_in_trace.rs:69-71 | with the obstacle on another entity, a cuboid hit is reported exactly when the obstacle is strictly farther, so a tie occludes |
| ProbeFacts.BoxHitKeptWithoutForeignObstacle | src/interaction/pull/find_in_trace.rs:69-74 | a missing obstacle hit, or one on the prop itself, never occludes the cuboid hit |
| ProbeFacts.OccludedRayHitIsReturned | src/interaction/pull/find_in_trace.rs:21-42 | an occluded ray hit is still returned and the cuboid is never cast, while the corrected probe does cast the cuboid |
| ProbeFacts.IntendedAgreesUnlessRayOccluded | src/interaction/pull/find_in_trace.rs:21-80 | the source and the corrected probe give the same answer whenever the ray missed or its hit was not occluded |
| Pull.ExcludeEntities | src/pull_object.rs:33-36 | the pull filter keeps the configured layer mask and excludes every actor collider |
| Pull.PullSetup | src/pull_object.rs:33-39 | the search bound starts at `trace_length + 1`, the query box side is twice that, and the shared filter excludes all actor colliders |
| Pull.Step | src/pull_object.rs:49-84 | one iteration never increases `nearest_dist`; it decreases exactly for a dynamic, in-cone body strictly closer than the best so far whose occlusion ray (same filter, length = its distance) first hits that body, and that body then becomes the best; otherwise nothing changes |
| Pull.PullObjectPiped | src/pull_object.rs:23-86 | the result is empty exactly when no overlapping collider leads to an eligible body (dynamic, dot strictly above the cone, distance below `trace_length + 1`, unoccluded); otherwise it is the body of the first eligible collider at minimal distance, with that distance, so earlier candidates win ties |
| Event.UsherEvent | src/event.rs:36-78 | a missing state, actor or transform component is reported in that order and nothing happens; on a valid target, `JustPressedL` always yields the `Throw` tag, `JustPressedR` while holding yields the `Drop` tag (the source only logs both), `JustPressedR`/`PressedR` while not holding trigger `PullObject` on the same entity, and `PressedR` while holding does nothing |
| Actor.DropReset | src/interaction/drop.rs:22 | a drop resets the cooldown (an opaque flag) |
| Drop.ReleaseActor | src/interaction/drop.rs:18-23 | the actor ends `Idle`, its `Dropping` verb is gone and its cooldown is reset for a drop |
| Drop.ReleaseProp | src/interaction/drop.rs:21-33 | `HeldProp` is always removed; with the mass cache the mass becomes the cached mass and both velocities become zero; without it, mass and velocities are untouched and the missing cache is logged; the cache, the pre-pickup rotation and the overrides are never changed |
| Drop.ReleasePropIdempotent | src/interaction/drop.rs:18-37 | releasing a prop a second time changes nothing |
| Drop.DropRestoresPrePickupMass | src/prop.rs:138-142 | when `NonPickupMass` caches the mass from before pickup, dropping restores that mass whatever temporary mass and velocities the prop had while held, and leaves it at rest and unmarked |
| Drop.DropSystem | src/interaction/drop.rs:8-38 | over all dropping actors: each ends idle with its verb removed and its cooldown reset; other actors are untouched; each dropped prop is released exactly once, however many actors dropped it; other props are untouched; one log entry per actor reports a missing mass cache exactly when there is one |

## Left out

- Physics-engine geometry: `cast_ray`, `cast_shape` and `shape_intersections` are foreign calls. Their answers are oracle arguments; ray and box intersection are not modelled.
- Vector and quaternion maths (`Dir3::new_and_length`, `dot`, `forward()`): each body comes with a precomputed distance and dot product. The ray origin, the direction and the cast rotation are not represented. The occlusion ray of the pull selector is identified by the body it aims at.
- Floating point: scalars are reals, so rounding and NaN are not modelled.
- Bevy plumbing: observers, `Trigger`, the `Commands` queue (removals are applied at once), the pipe through `associated_colliders` (its source is not part of this model; the actor colliders are an argument), and `info!`/`error!` logging (kept only as outcome tags).
- `pull_object` in src/pull_object.rs:13-20 is a stub that reads the actor and does nothing, so it has no model.
- src/lib.rs holds plugin and schedule wiring only.
- Pull.ExcludeEntities: states only that every actor collider is excluded and the mask is kept. Avian's `with_excluded_entities` is not part of this model; the body replaces the excluded set.
- Event.UsherEvent: the Throw and Drop arms only log (src/event.rs:70-71). The model returns a `Throw` or `Drop` outcome tag; nothing is thrown or dropped there and no verb is added.
- Actor.DropReset: `Cooldown` is not part of this model; a reset for a drop is a single flag.
- The `expect`/`unwrap` calls become requirements. In the pull selector, every overlapping collider has a parent body with a known kind, and every dynamic body lies at non-zero distance. In the drop handler, every dropped prop has mass and velocities.
- The actor's default configuration (`AvianPickupActor::default()`) is not part of this model, so the override defaults take it as an argument.
- `PreferredPickupRotation` and `PrePickupRotation` are carried as data only. The hold controller that uses them is not in the modelled files, and neither are mass substitution on pickup, throwing, the pulling state, override lookup, cooldown gating or contention between actors.
- `AvianPickupActorState` is modelled fieldless (`Idle | Pulling | Holding`), matching the comparisons in src/event.rs:71-73. The dispatcher only needs to know whether the actor is holding.

## Findings

| source | as written | input that shows it | evidently intended | confidence | as-written member | corrected member |
|---|---|---|---|---|---|---|
| src/interaction/pull/find_in_trace.rs:21-37 | the result of `hit.filter(...)` is discarded and line 37 matches on the unfiltered ray hit | the prop ray hits entity 1 at distance 2.0 and the obstacle ray hits entity 2 at distance 1.0: entity 1 is returned although a wall stands in front of it | an occluded ray hit is dropped and the cuboid phase is tried, as in the cuboid phase | high; not executed | ProbeFacts.OccludedRayHitIsReturned | Probe.FindPropInTraceIntended |
