/** The per-actor data the core reads: the `AvianPickupActor` configuration,
    the actor's state and its cooldown. Their defining files are not part of
    this model; only the fields the core touches appear here. */
module Actor {
  import opened Common

  /** `AvianPickupActorHoldConfig`. */
  datatype HoldConfig = HoldConfig(pitchRange: Range, preferredDistance: real, temporaryPropMass: real)

  /** `AvianPickupActorThrowConfig`. */
  datatype ThrowConfig = ThrowConfig(linearSpeedRange: Range, angularSpeedRange: Range)

  /** `AvianPickupActor`. */
  datatype Config = Config(
    spatialQueryFilter: Filter,
    propFilter: Filter,
    obstacleFilter: Filter,
    interactionDistance: real,
    traceLength: real,
    cone: real,
    hold: HoldConfig,
    throw: ThrowConfig)

  /** `AvianPickupActorState`, as compared in the event dispatcher: the
      holding variant carries no prop there. */
  datatype State = Idle | Pulling | Holding

  /** `Cooldown`: its timers are not part of this model; the only thing
      recorded is whether it was last reset by a drop. */
  datatype Cooldown = Cooldown(resetForDrop: bool)

  /** `Cooldown::drop`. */
  function DropReset(c: Cooldown): (r: Cooldown)
    ensures r.resetForDrop
  {
    Cooldown(true)
  }
}
