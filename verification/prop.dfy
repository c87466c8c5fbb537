/** Components a prop can carry (src/prop.rs), and the prop entity as the
    release transition sees it. */
module Prop {
  import opened Common
  import Actor

  /** `PreferredPickupRotation`: rotation in the actor's local space. */
  datatype PreferredPickupRotation = PreferredPickupRotation(rotation: Quat)

  /** `PrePickupRotation`: the rotation the prop had when it was picked up. */
  datatype PrePickupRotation = PrePickupRotation(rotation: Quat)

  /** `HelpPropPitchRangeOverride`. */
  datatype PitchRangeOverride = PitchRangeOverride(range: Range)

  /** `PreferredPickupDistanceOverride`. */
  datatype PreferredDistanceOverride = PreferredDistanceOverride(distance: real)

  /** `PickupMassOverride`. */
  datatype PickupMassOverride = PickupMassOverride(mass: real)

  /** `ThrownLinearSpeedOverride`. */
  datatype ThrownLinearSpeedOverride = ThrownLinearSpeedOverride(speed: real)

  /** `ThrownAngularSpeedOverride`. */
  datatype ThrownAngularSpeedOverride = ThrownAngularSpeedOverride(speed: real)

  /** `NonPickupMass`: the mass the prop had before it was picked up, which is
      also the mass it must have again once it is released. */
  datatype NonPickupMass = NonPickupMass(mass: real)

  /** The optional override components a prop may carry. */
  datatype Overrides = Overrides(
    preferredRotation: Option<PreferredPickupRotation>,
    pitchRange: Option<PitchRangeOverride>,
    preferredDistance: Option<PreferredDistanceOverride>,
    pickupMass: Option<PickupMassOverride>,
    thrownLinearSpeed: Option<ThrownLinearSpeedOverride>,
    thrownAngularSpeed: Option<ThrownAngularSpeedOverride>)

  /** A prop entity: the rigid-body components the core writes, the
      `HeldProp` marker, the mass cache and everything else it carries. */
  datatype PropEntity = PropEntity(
    mass: real,
    linearVelocity: Vec3,
    angularVelocity: Vec3,
    nonPickupMass: Option<NonPickupMass>,
    heldProp: bool,
    prePickupRotation: Option<PrePickupRotation>,
    overrides: Overrides)

  // The `Default` of each override is taken from the actor's default
  // configuration, passed in here as `actorDefault`.

  /** `HelpPropPitchRangeOverride::default`. */
  function DefaultPitchRangeOverride(actorDefault: Actor.Config): (o: PitchRangeOverride)
    ensures o.range == actorDefault.hold.pitchRange
  {
    PitchRangeOverride(actorDefault.hold.pitchRange)
  }

  /** `PreferredPickupDistanceOverride::default`. */
  function DefaultPreferredDistanceOverride(actorDefault: Actor.Config): (o: PreferredDistanceOverride)
    ensures o.distance == actorDefault.hold.preferredDistance
  {
    PreferredDistanceOverride(actorDefault.hold.preferredDistance)
  }

  /** `PickupMassOverride::default`. */
  function DefaultPickupMassOverride(actorDefault: Actor.Config): (o: PickupMassOverride)
    ensures o.mass == actorDefault.hold.temporaryPropMass
  {
    PickupMassOverride(actorDefault.hold.temporaryPropMass)
  }

  /** `ThrownLinearSpeedOverride::default`: the fastest throw the actor default allows. */
  function DefaultThrownLinearSpeedOverride(actorDefault: Actor.Config): (o: ThrownLinearSpeedOverride)
    ensures o.speed == actorDefault.throw.linearSpeedRange.end
    ensures actorDefault.throw.linearSpeedRange.start <= actorDefault.throw.linearSpeedRange.end ==>
      actorDefault.throw.linearSpeedRange.Contains(o.speed)
    ensures forall s :: actorDefault.throw.linearSpeedRange.Contains(s) ==> s <= o.speed
  {
    ThrownLinearSpeedOverride(actorDefault.throw.linearSpeedRange.end)
  }

  /** `ThrownAngularSpeedOverride::default`: the fastest spin the actor default allows. */
  function DefaultThrownAngularSpeedOverride(actorDefault: Actor.Config): (o: ThrownAngularSpeedOverride)
    ensures o.speed == actorDefault.throw.angularSpeedRange.end
    ensures actorDefault.throw.angularSpeedRange.start <= actorDefault.throw.angularSpeedRange.end ==>
      actorDefault.throw.angularSpeedRange.Contains(o.speed)
    ensures forall s :: actorDefault.throw.angularSpeedRange.Contains(s) ==> s <= o.speed
  {
    ThrownAngularSpeedOverride(actorDefault.throw.angularSpeedRange.end)
  }
}
