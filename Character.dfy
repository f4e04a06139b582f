/**
  The first-person character's interaction logic: one "interact" press either
  releases the held physics body, or probes for an object to rotate and then
  tries to grab one; every frame advances the objects being rotated.
  Ray traces are inputs (the hit actor, its component, its rotation and
  whether it carries an audio component); the physics handle's attachment is
  the `grabbedComponent` field.
 */
module Character {
  import opened Engine
  import opened RotationSlots

  /**
    The component the physics handle holds after one press: a press while
    holding always lets go; a press while idle grabs the hit component exactly
    when the hit actor, the physics handle and the hit component all exist.
   */
  function AfterPress(held: Option<ComponentId>, hitActor: Option<ActorId>, hasHandle: bool, hitComponent: Option<ComponentId>): (r: Option<ComponentId>)
    ensures held.Some? ==> r.None?
    ensures held.None? ==> (r.Some? <==> hitActor.Some? && hasHandle && hitComponent.Some?)
    ensures r.Some? ==> r == hitComponent
  {
    if held.Some? then None
    else if hitActor.Some? && hasHandle && hitComponent.Some? then hitComponent
    else None
  }

  /** Two presses in a row, the first of which grabs, leave the handle empty again. */
  lemma GrabThenReleaseIsIdle(hitActor: Option<ActorId>, hasHandle: bool, hitComponent: Option<ComponentId>,
                              hitActor': Option<ActorId>, hitComponent': Option<ComponentId>)
    requires AfterPress(None, hitActor, hasHandle, hitComponent).Some?
    ensures AfterPress(AfterPress(None, hitActor, hasHandle, hitComponent), hitActor', hasHandle, hitComponent') == None
  {
  }

  /** `PartialProbeHolds`, for the table as the character stores it. */
  lemma ScanSoFar(a: array<ObjectToRotate>, s: seq<ObjectToRotate>, x: ActorId, rot: Rotator, audio: bool, inc: real, i: nat)
    requires NoDuplicates(s) && a.Length == |s| && i <= |s|
    requires forall k :: 0 <= k < i ==> a[k] == Probed(s, Some(x), rot, audio, inc)[k]
    requires forall k :: i <= k < a.Length ==> a[k] == s[k]
    ensures (exists k :: 0 <= k < a.Length && a[k].actorToRotate == Some(x))
      <==> IndexOf(s, x).Some? || (FirstFree(s).Some? && FirstFree(s).value < i)
  {
    PartialProbeHolds(s, x, rot, audio, inc, a[..], i);
    assert forall k :: 0 <= k < a.Length ==> a[..][k] == a[k];
  }

  /** `PartialProbeComplete`, for the table as the character stores it. */
  lemma ScanComplete(a: array<ObjectToRotate>, s: seq<ObjectToRotate>, x: ActorId, rot: Rotator, audio: bool, inc: real, i: nat)
    requires NoDuplicates(s) && a.Length == |s| && i < |s|
    requires forall k :: 0 <= k < i ==> a[k] == Probed(s, Some(x), rot, audio, inc)[k]
    requires a[i] == Probed(s, Some(x), rot, audio, inc)[i]
    requires forall k :: i < k < a.Length ==> a[k] == s[k]
    requires s[i].actorToRotate == Some(x) || (IndexOf(s, x).None? && FirstFree(s) == Some(i))
    ensures a[..] == Probed(s, Some(x), rot, audio, inc)
  {
    PartialProbeComplete(s, x, rot, audio, inc, a[..], i);
  }

  class DefaultCharacter {
    /** The table of objects being rotated; its length never changes. */
    var objectsToRotate: array<ObjectToRotate>
    /** Yaw added to a target per press (editor-tunable). */
    var amountToRotateObject: real
    /** Length of the interaction ray (editor-tunable). */
    var reach: real
    /** Whether the physics handle subobject exists. */
    var hasPhysicsHandle: bool
    /** The component the physics handle holds: `None` is Idle, `Some` is Holding. */
    var grabbedComponent: Option<ComponentId>
    /** The actor the last grab probe hit. */
    var actorToGrab: Option<ActorId>
    /** Components whose collision response to pawns this character set to Ignore. */
    var ignoresPawn: set<ComponentId>

    ghost predicate Valid()
      reads this, objectsToRotate
    {
      && NoDuplicates(objectsToRotate[..])
      && RotatingHaveActors(objectsToRotate[..])
      && (grabbedComponent.Some? ==> grabbedComponent.value in ignoresPawn)
    }

    /** A character whose table has `slots` default (empty) entries. */
    constructor (slots: nat)
      ensures Valid() && fresh(objectsToRotate)
      ensures objectsToRotate[..] == seq(slots, _ => DefaultObjectToRotate())
      ensures amountToRotateObject == DefaultAmountToRotate && reach == DefaultReach
      ensures hasPhysicsHandle && grabbedComponent.None? && actorToGrab.None? && ignoresPawn == {}
    {
      objectsToRotate := new ObjectToRotate[slots](_ => DefaultObjectToRotate());
      amountToRotateObject := DefaultAmountToRotate;
      reach := DefaultReach;
      hasPhysicsHandle := true;
      grabbedComponent := None;
      actorToGrab := None;
      ignoresPawn := {};
    }

    /**
      One press of "interact". `rotHit` is what the rotatable-channel probe hits
      (with that actor's rotation and audio presence), `grabHitActor` and
      `grabHitComponent` what the physics-body probe hits.
     */
    method Interact(rotHit: Option<ActorId>, rotHitRotation: Rotator, rotHitHasAudio: bool,
                    grabHitActor: Option<ActorId>, grabHitComponent: Option<ComponentId>)
      requires Valid() && hasPhysicsHandle
      requires grabbedComponent.None? ==> ProbeSafe(objectsToRotate[..], rotHit)
      modifies this`grabbedComponent, this`actorToGrab, this`ignoresPawn, objectsToRotate
      ensures Valid()
      ensures grabbedComponent == AfterPress(old(grabbedComponent), grabHitActor, hasPhysicsHandle, grabHitComponent)
      ensures old(grabbedComponent).Some? ==>
        && objectsToRotate[..] == old(objectsToRotate[..])
        && actorToGrab == old(actorToGrab)
        && ignoresPawn == old(ignoresPawn) - {old(grabbedComponent).value}
      ensures old(grabbedComponent).None? ==>
        && objectsToRotate[..] == Probed(old(objectsToRotate[..]), rotHit, rotHitRotation, rotHitHasAudio, amountToRotateObject)
        && actorToGrab == grabHitActor
        && ignoresPawn == old(ignoresPawn) + (if grabbedComponent.Some? then {grabbedComponent.value} else {})
    {
      if grabbedComponent.None? {
        CheckForObjectsToRotate(rotHit, rotHitRotation, rotHitHasAudio);
        Grab(grabHitActor, grabHitComponent);
      } else {
        ReleaseGrabbed();
      }
    }

    /** Attach the hit body to the physics handle, if the probe found one. */
    method Grab(hitActor: Option<ActorId>, hitComponent: Option<ComponentId>)
      requires grabbedComponent.None?
      modifies this`grabbedComponent, this`actorToGrab, this`ignoresPawn
      ensures actorToGrab == hitActor
      ensures grabbedComponent == AfterPress(None, hitActor, hasPhysicsHandle, hitComponent)
      ensures ignoresPawn == old(ignoresPawn) + (if grabbedComponent.Some? then {grabbedComponent.value} else {})
    {
      actorToGrab := hitActor;
      if actorToGrab.Some? && hasPhysicsHandle && hitComponent.Some? {
        ignoresPawn := ignoresPawn + {hitComponent.value};
        grabbedComponent := hitComponent;
      }
    }

    /** Detach the held body and let it block pawns again. */
    method ReleaseGrabbed()
      requires grabbedComponent.Some?
      modifies this`grabbedComponent, this`ignoresPawn
      ensures grabbedComponent.None?
      ensures ignoresPawn == old(ignoresPawn) - {old(grabbedComponent).value}
    {
      ignoresPawn := ignoresPawn - {grabbedComponent.value};
      grabbedComponent := None;
    }

    /**
      The rotatable-channel probe: one pass over the table with a search for
      the hit actor at every empty slot, as the character performs it. It
      computes exactly the table `Probed` describes.
     */
    method CheckForObjectsToRotate(hit: Option<ActorId>, hitRotation: Rotator, hitHasAudio: bool)
      requires Valid()
      requires ProbeSafe(objectsToRotate[..], hit)
      modifies objectsToRotate
      ensures objectsToRotate[..] == Probed(old(objectsToRotate[..]), hit, hitRotation, hitHasAudio, amountToRotateObject)
      ensures Valid()
    {
      if hit.None? { return; }
      var a := objectsToRotate;
      ghost var s0 := a[..];
      ghost var p := Probed(s0, hit, hitRotation, hitHasAudio, amountToRotateObject);
      ProbePreservesNoDuplicates(s0, hit, hitRotation, hitHasAudio, amountToRotateObject);
      ProbeKeepsRotatingActors(s0, hit, hitRotation, hitHasAudio, amountToRotateObject);

      var shouldMakeNewStruct := true;
      var i := 0;
      while i < a.Length
        invariant 0 <= i <= a.Length
        invariant forall k :: 0 <= k < i ==> a[k] == p[k]
        invariant forall k :: i <= k < a.Length ==> a[k] == s0[k]
        invariant IndexOf(s0, hit.value).None? && (FirstFree(s0).None? || FirstFree(s0).value >= i) ==> shouldMakeNewStruct
      {
        var stop;
        shouldMakeNewStruct, stop := VisitSlot(s0, hit, hitRotation, hitHasAudio, i, shouldMakeNewStruct);
        if stop {
          return;
        }
        i := i + 1;
      }
      assert a[..] == p;
    }

    /**
      The probe's visit of slot `i`: update the "make a new entry" flag, then
      re-arm, create or extend the slot's entry. `stop` reports the early
      return on a missing audio component after re-arming or creating.
     */
    method VisitSlot(ghost s0: seq<ObjectToRotate>, hit: Option<ActorId>, hitRotation: Rotator, hitHasAudio: bool,
                     i: nat, shouldMakeNewStruct: bool) returns (should: bool, stop: bool)
      requires hit.Some? && NoDuplicates(s0) && |s0| == objectsToRotate.Length && i < |s0|
      requires forall k :: 0 <= k < i ==> objectsToRotate[k] == Probed(s0, hit, hitRotation, hitHasAudio, amountToRotateObject)[k]
      requires forall k :: i <= k < objectsToRotate.Length ==> objectsToRotate[k] == s0[k]
      requires IndexOf(s0, hit.value).None? && (FirstFree(s0).None? || FirstFree(s0).value >= i) ==> shouldMakeNewStruct
      modifies objectsToRotate
      ensures forall k :: 0 <= k <= i ==> objectsToRotate[k] == Probed(s0, hit, hitRotation, hitHasAudio, amountToRotateObject)[k]
      ensures forall k :: i < k < objectsToRotate.Length ==> objectsToRotate[k] == s0[k]
      ensures IndexOf(s0, hit.value).None? && (FirstFree(s0).None? || FirstFree(s0).value > i) ==> should
      ensures stop ==> objectsToRotate[..] == Probed(s0, hit, hitRotation, hitHasAudio, amountToRotateObject)
    {
      var a := objectsToRotate;
      var inc := amountToRotateObject;
      ghost var x := hit.value;
      should := shouldMakeNewStruct;
      stop := false;
      var e := a[i];
      if e.actorToRotate.None? {
        // Is the hit actor anywhere in the table already?
        var found := HoldsActor(hit);
        if found {
          should := false;
        }
        ScanSoFar(a, s0, x, hitRotation, hitHasAudio, inc, i);
      } else if hit == e.actorToRotate {
        should := false;
      }

      ProbeSlot(s0, x, hitRotation, hitHasAudio, inc, i, should);
      if !e.isRotating && hit == e.actorToRotate {
        // A finished entry: re-arm it from the actor's current rotation.
        a[i] := e.(actorRotation := hitRotation, originalActorYaw := hitRotation.yaw,
                   targetRotation := hitRotation.yaw + inc, isRotating := true);
        stop := !e.hasAudio;
      } else if should && !e.isRotating && e.actorToRotate.None? {
        // The first free slot, and the hit actor is nowhere in the table.
        a[i] := ObjectToRotate(hit, hitRotation, hitRotation.yaw, hitRotation.yaw + inc, true, hitHasAudio);
        stop := !hitHasAudio;
      } else if hit == e.actorToRotate && e.isRotating && HasTurned(e) {
        // Pressed again mid-rotation: push the target one increment further.
        a[i] := e.(targetRotation := e.targetRotation + inc);
      }
      if stop {
        ScanComplete(a, s0, x, hitRotation, hitHasAudio, inc, i);
      }
    }

    /** Whether some slot of the table holds `actor`: a scan that stops at the first match. */
    method HoldsActor(actor: Option<ActorId>) returns (found: bool)
      ensures found <==> exists k :: 0 <= k < objectsToRotate.Length && objectsToRotate[k].actorToRotate == actor
    {
      var a := objectsToRotate;
      found := false;
      var j := 0;
      while j < a.Length
        invariant 0 <= j <= a.Length
        invariant forall k :: 0 <= k < j ==> a[k].actorToRotate != actor
      {
        if actor == a[j].actorToRotate {
          found := true;
          break;
        }
        j := j + 1;
      }
    }

    /** One frame of the character: advance every object being rotated. */
    method Tick(deltaTime: real)
      requires Valid()
      modifies objectsToRotate
      ensures Valid()
      ensures forall k :: 0 <= k < objectsToRotate.Length ==> objectsToRotate[k] == Advance(old(objectsToRotate[k]), deltaTime)
    {
      RotateObjects(deltaTime);
    }

    /** Lerp every rotating entry toward its target, snapping and stopping within the tolerance. */
    method RotateObjects(deltaTime: real)
      requires Valid()
      modifies objectsToRotate
      ensures Valid()
      ensures forall k :: 0 <= k < objectsToRotate.Length ==> objectsToRotate[k] == Advance(old(objectsToRotate[k]), deltaTime)
    {
      var a := objectsToRotate;
      for i := 0 to a.Length
        invariant forall k :: 0 <= k < i ==> a[k] == Advance(old(a[k]), deltaTime)
        invariant forall k :: i <= k < a.Length ==> a[k] == old(a[k])
      {
        if a[i].isRotating {
          a[i] := a[i].(actorRotation := a[i].actorRotation.(yaw := Lerp(a[i].actorRotation.yaw, a[i].targetRotation, RotateRate * deltaTime)));
          if Abs(a[i].targetRotation - a[i].actorRotation.yaw) < SnapTolerance {
            a[i] := a[i].(actorRotation := a[i].actorRotation.(yaw := a[i].targetRotation), isRotating := false);
          }
        }
      }
      assert forall j, k :: 0 <= j < k < a.Length ==> a[j].actorToRotate == old(a[j]).actorToRotate && a[k].actorToRotate == old(a[k]).actorToRotate;
      assert forall k :: 0 <= k < a.Length && a[k].isRotating ==> old(a[k]).isRotating;
    }
  }
}
