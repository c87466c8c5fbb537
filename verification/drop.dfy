/** The release transition `drop` (src/interaction/drop.rs): every actor
    carrying a `Dropping(prop)` verb goes back to idle and lets go of its prop,
    whose pre-pickup mass is restored and whose motion is stopped. */
module Drop {
  import opened Common
  import Actor
  import Prop

  /** An actor as the drop system queries it: state, cooldown and the
      optional `Dropping` verb naming the prop to let go of. */
  datatype ActorEntity = ActorEntity(state: Actor.State, cooldown: Actor.Cooldown, dropping: Option<Entity>)

  /** The entities the drop system reads and writes. */
  datatype World = World(actors: map<Entity, ActorEntity>, props: map<Entity, Prop.PropEntity>)

  /** What is logged for one release. */
  datatype Outcome = Restored | MassCacheMissing

  datatype Released = Released(prop: Prop.PropEntity, outcome: Outcome)

  /** The actor half of a release. */
  function ReleaseActor(a: ActorEntity): (r: ActorEntity)
    ensures r.state == Actor.Idle
    ensures r.dropping.None?
    ensures r.cooldown.resetForDrop
  {
    ActorEntity(Actor.Idle, Actor.DropReset(a.cooldown), None)
  }

  /** The prop half of a release: the marker always goes; mass and velocities
      change only when the mass cache is there, and nothing else changes. */
  function ReleaseProp(p: Prop.PropEntity): (r: Released)
    ensures !r.prop.heldProp
    ensures p.nonPickupMass.Some? ==>
      r.prop.mass == p.nonPickupMass.value.mass &&
      r.prop.linearVelocity == Zero && r.prop.angularVelocity == Zero &&
      r.outcome == Restored
    ensures p.nonPickupMass.None? ==>
      r.prop.mass == p.mass &&
      r.prop.linearVelocity == p.linearVelocity && r.prop.angularVelocity == p.angularVelocity &&
      r.outcome == MassCacheMissing
    // The mass cache, the overrides and every other component stay as they were.
    ensures r.prop.nonPickupMass == p.nonPickupMass
    ensures r.prop.prePickupRotation == p.prePickupRotation
    ensures r.prop.overrides == p.overrides
  {
    var unmarked := p.(heldProp := false);
    match p.nonPickupMass
    case None => Released(unmarked, MassCacheMissing)
    case Some(cache) =>
      Released(unmarked.(mass := cache.mass, linearVelocity := Zero, angularVelocity := Zero), Restored)
  }

  /** Releasing a prop twice is releasing it once. */
  lemma ReleasePropIdempotent(p: Prop.PropEntity)
    ensures ReleaseProp(ReleaseProp(p).prop).prop == ReleaseProp(p).prop
  {
  }

  /** `NonPickupMass` holds the mass from before the pickup, so whatever
      temporary mass the prop carried while held, dropping it restores the
      original mass and leaves it at rest. */
  lemma DropRestoresPrePickupMass(p: Prop.PropEntity, temporaryMass: real, heldLinear: Vec3, heldAngular: Vec3)
    ensures
      var held := p.(mass := temporaryMass, linearVelocity := heldLinear, angularVelocity := heldAngular,
                     nonPickupMass := Some(Prop.NonPickupMass(p.mass)), heldProp := true);
      var r := ReleaseProp(held).prop;
      r.mass == p.mass && r.linearVelocity == Zero && r.angularVelocity == Zero && !r.heldProp
  {
  }

  /** Some actor among the first `n` of `order` is dropping prop `p`. */
  predicate DroppedAmong(w: World, order: seq<Entity>, n: nat, p: Entity) {
    exists i :: 0 <= i < n && i < |order| && order[i] in w.actors && w.actors[order[i]].dropping == Some(p)
  }

  /** The query `(Entity, &mut State, &mut Cooldown, &Dropping)` visits the
      actors of `order`: each once, each dropping a prop that has mass and
      velocities, and every dropping actor among them. */
  predicate QueryOrder(w: World, order: seq<Entity>) {
    (forall i :: 0 <= i < |order| ==> order[i] !in order[..i]) &&
    (forall i :: 0 <= i < |order| ==>
      order[i] in w.actors && w.actors[order[i]].dropping.Some? && w.actors[order[i]].dropping.value in w.props) &&
    (forall a :: a in w.actors && w.actors[a].dropping.Some? ==> a in order)
  }

  /** Extending the visited prefix by one actor adds exactly that actor's prop. */
  lemma DroppedAmongStep(w: World, order: seq<Entity>, k: nat, p: Entity)
    requires k < |order| && order[k] in w.actors
    ensures DroppedAmong(w, order, k + 1, p) <==> DroppedAmong(w, order, k, p) || w.actors[order[k]].dropping == Some(p)
  {
  }

  /** One iteration of the system: release actor `a` and its prop. */
  function DropOne(w: World, a: Entity): (World, Outcome)
    requires a in w.actors && w.actors[a].dropping.Some? && w.actors[a].dropping.value in w.props
  {
    var prop := w.actors[a].dropping.value;
    var released := ReleaseProp(w.props[prop]);
    (World(w.actors[a := ReleaseActor(w.actors[a])], w.props[prop := released.prop]), released.outcome)
  }

  /** The actors of `cur` once the first `k` actors of `order` have been processed. */
  predicate ActorsProcessed(w: World, order: seq<Entity>, k: nat, cur: World)
    requires k <= |order|
  {
    cur.actors.Keys == w.actors.Keys &&
    (forall i :: 0 <= i < k ==> order[i] in w.actors && cur.actors[order[i]] == ReleaseActor(w.actors[order[i]])) &&
    (forall a :: a in w.actors && a !in order[..k] ==> cur.actors[a] == w.actors[a])
  }

  /** The props of `cur` once the first `k` actors of `order` have been processed. */
  predicate PropsProcessed(w: World, order: seq<Entity>, k: nat, cur: World) {
    cur.props.Keys == w.props.Keys &&
    (forall p :: p in w.props && DroppedAmong(w, order, k, p) ==> cur.props[p] == ReleaseProp(w.props[p]).prop) &&
    (forall p :: p in w.props && !DroppedAmong(w, order, k, p) ==> cur.props[p] == w.props[p])
  }

  lemma DropOneActors(w: World, order: seq<Entity>, k: nat, cur: World)
    requires k < |order| && order[k] in w.actors && order[k] !in order[..k]
    requires ActorsProcessed(w, order, k, cur)
    ensures order[k] in cur.actors && cur.actors[order[k]] == w.actors[order[k]]
    ensures ActorsProcessed(w, order, k + 1, World(cur.actors[order[k] := ReleaseActor(cur.actors[order[k]])], cur.props))
  {
  }

  lemma DropOneProps(w: World, order: seq<Entity>, k: nat, cur: World)
    requires k < |order| && order[k] in w.actors && w.actors[order[k]].dropping.Some?
    requires w.actors[order[k]].dropping.value in w.props
    requires PropsProcessed(w, order, k, cur)
    ensures w.actors[order[k]].dropping.value in cur.props
    ensures cur.props[w.actors[order[k]].dropping.value].nonPickupMass == w.props[w.actors[order[k]].dropping.value].nonPickupMass
    ensures
      var prop := w.actors[order[k]].dropping.value;
      PropsProcessed(w, order, k + 1, World(cur.actors, cur.props[prop := ReleaseProp(cur.props[prop]).prop]))
  {
    var prop := w.actors[order[k]].dropping.value;
    var props' := cur.props[prop := ReleaseProp(cur.props[prop]).prop];
    forall p | p in w.props && DroppedAmong(w, order, k + 1, p)
      ensures props'[p] == ReleaseProp(w.props[p]).prop
    {
      DroppedAmongStep(w, order, k, p);
      if p == prop {
        ReleasePropIdempotent(w.props[prop]);
      }
    }
    forall p | p in w.props && !DroppedAmong(w, order, k + 1, p)
      ensures props'[p] == w.props[p]
    {
      DroppedAmongStep(w, order, k, p);
    }
  }

  /** The log after the first `k` actors of `order` have been processed. */
  predicate LogProcessed(w: World, order: seq<Entity>, k: nat, outcomes: seq<Outcome>)
    requires QueryOrder(w, order) && k <= |order|
  {
    |outcomes| == k && forall i :: 0 <= i < k ==> outcomes[i] == Logged(w, order[i])
  }

  /** One loop iteration keeps the world and the log in step with the prefix processed. */
  lemma DropOneProgresses(w: World, order: seq<Entity>, k: nat, cur: World, outcomes: seq<Outcome>)
    requires QueryOrder(w, order) && k < |order|
    requires ActorsProcessed(w, order, k, cur) && PropsProcessed(w, order, k, cur) && LogProcessed(w, order, k, outcomes)
    ensures order[k] in cur.actors && cur.actors[order[k]].dropping.Some? && cur.actors[order[k]].dropping.value in cur.props
    ensures
      var step := DropOne(cur, order[k]);
      ActorsProcessed(w, order, k + 1, step.0) && PropsProcessed(w, order, k + 1, step.0) &&
      LogProcessed(w, order, k + 1, outcomes + [step.1])
  {
    DropOneActors(w, order, k, cur);
    DropOneProps(w, order, k, cur);
  }

  /** The `drop` system over all dropping actors, visited in `order`. */
  method DropSystem(w: World, order: seq<Entity>) returns (w': World, outcomes: seq<Outcome>)
    requires QueryOrder(w, order)
    ensures w'.actors.Keys == w.actors.Keys && w'.props.Keys == w.props.Keys
    // every dropping actor ends idle, without its verb, with its cooldown reset
    ensures forall a :: a in w.actors && w.actors[a].dropping.Some? ==>
      w'.actors[a].state == Actor.Idle && w'.actors[a].dropping.None? && w'.actors[a].cooldown.resetForDrop
    ensures forall a :: a in w.actors && w.actors[a].dropping.None? ==> w'.actors[a] == w.actors[a]
    // every dropped prop is released once, however many actors dropped it; other props are untouched
    ensures forall p :: p in w.props && DroppedAmong(w, order, |order|, p) ==> w'.props[p] == ReleaseProp(w.props[p]).prop
    ensures forall p :: p in w.props && !DroppedAmong(w, order, |order|, p) ==> w'.props[p] == w.props[p]
    // one log entry per actor, reporting a missing mass cache exactly when there is one
    ensures |outcomes| == |order|
    ensures forall i :: 0 <= i < |order| ==>
      (outcomes[i] == MassCacheMissing <==> w.props[w.actors[order[i]].dropping.value].nonPickupMass.None?)
  {
    w' := w;
    outcomes := [];
    var k := 0;
    while k < |order|
      invariant 0 <= k <= |order|
      invariant ActorsProcessed(w, order, k, w') && PropsProcessed(w, order, k, w')
      invariant LogProcessed(w, order, k, outcomes)
    {
      DropOneProgresses(w, order, k, w', outcomes);
      var step := DropOne(w', order[k]);
      w', outcomes := step.0, outcomes + [step.1];
      k := k + 1;
    }
    AllProcessed(w, order, w');
  }

  /** Once every actor of `order` is processed, each dropping actor is released. */
  lemma AllProcessed(w: World, order: seq<Entity>, cur: World)
    requires QueryOrder(w, order) && ActorsProcessed(w, order, |order|, cur)
    ensures forall a :: a in w.actors && w.actors[a].dropping.Some? ==> cur.actors[a] == ReleaseActor(w.actors[a])
    ensures forall a :: a in w.actors && w.actors[a].dropping.None? ==> cur.actors[a] == w.actors[a]
  {
    assert order[..|order|] == order;
    forall a | a in w.actors && w.actors[a].dropping.Some?
      ensures cur.actors[a] == ReleaseActor(w.actors[a])
    {
      var i :| 0 <= i < |order| && order[i] == a;
    }
  }

  /** What releasing actor `a`'s prop logs, judged from the world before the system ran. */
  function Logged(w: World, a: Entity): Outcome
    requires a in w.actors && w.actors[a].dropping.Some? && w.actors[a].dropping.value in w.props
  {
    if w.props[w.actors[a].dropping.value].nonPickupMass.None? then MassCacheMissing else Restored
  }
}
