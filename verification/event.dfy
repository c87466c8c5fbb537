/** The input dispatcher `usher_event` (src/event.rs): validate the target
    entity, then turn an input event into a verb. */
module Event {
  import opened Common
  import Actor

  /** `AvianPickupEvent`. */
  datatype PickupEvent = JustPressedL | JustPressedR | PressedR

  /** What the dispatcher's query finds on the target entity: the optional
      state component and whether the actor and transform components exist. */
  datatype Target = Target(state: Option<Actor.State>, hasActor: bool, hasTransform: bool)

  /** Which required component was missing, in the order they are checked. */
  datatype Missing = MissingState | MissingActor | MissingTransform

  /** The dispatcher's effect: an error is logged and nothing happens; the
      `Throw` or `Drop` tag, which the source only logs; a `PullObject` is
      triggered on an entity; or nothing happens. */
  datatype Outcome = Rejected(missing: Missing) | Throw | Drop | PullObject(target: Entity) | Ignored

  predicate Valid(t: Target) {
    t.state.Some? && t.hasActor && t.hasTransform
  }

  function UsherEvent(entity: Entity, t: Target, event: PickupEvent): (o: Outcome)
    // Validation, in order: state, then actor, then transform.
    ensures o.Rejected? <==> !Valid(t)
    ensures t.state.None? ==> o == Rejected(MissingState)
    ensures t.state.Some? && !t.hasActor ==> o == Rejected(MissingActor)
    ensures t.state.Some? && t.hasActor && !t.hasTransform ==> o == Rejected(MissingTransform)
    // Dispatch on a valid target.
    ensures o == Throw <==> Valid(t) && event == JustPressedL
    ensures o == Drop <==> Valid(t) && event == JustPressedR && t.state.value == Actor.Holding
    ensures o.PullObject? <==> Valid(t) && event != JustPressedL && t.state.value != Actor.Holding
    ensures o.PullObject? ==> o.target == entity
    ensures o == Ignored <==> Valid(t) && event == PressedR && t.state.value == Actor.Holding
  {
    if t.state.None? then Rejected(MissingState)
    else if !t.hasActor then Rejected(MissingActor)
    else if !t.hasTransform then Rejected(MissingTransform)
    else
      var state := t.state.value;
      match event
      case JustPressedL => Throw
      case JustPressedR | PressedR =>
        if event == JustPressedR && state == Actor.Holding then Drop
        else if state != Actor.Holding then PullObject(entity)
        else Ignored
  }
}
