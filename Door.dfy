/**
  The pressure-plate door: every frame it swings toward its open angle while
  the opener stands on the plate, and back toward its initial yaw once the
  close delay has passed since it was last opening. The plate overlap test
  and the game clock are inputs.
 */
module Door {
  import opened Engine

  const DefaultOpenAngle: real := 90.0
  const DefaultDoorCloseDelay: real := 0.3
  const DefaultDoorOpenSpeed: real := 0.5
  const DefaultDoorCloseSpeed: real := 1.5

  /** Editor settings of a door. */
  datatype DoorConfig = DoorConfig(hasPressurePlate: bool, doorCloseDelay: real, doorOpenSpeed: real, doorCloseSpeed: real)

  /** The door's yaw bookkeeping after set-up; `openAngle` is absolute by then. */
  datatype DoorPose = DoorPose(initialYaw: real, currentYaw: real, openAngle: real, doorLastOpened: real)

  /** What one frame supplies: its duration, the game time and whether the opener overlaps the plate. */
  datatype DoorInput = DoorInput(deltaTime: real, now: real, openerOverlaps: bool)

  /** Both lerp factors of a frame lie in [0,1], so neither swing overshoots. */
  predicate FactorsInRange(c: DoorConfig, dt: real)
  {
    0.0 <= c.doorOpenSpeed * dt <= 1.0 && 0.0 <= c.doorCloseSpeed * dt <= 1.0
  }

  /** The yaw is within the swing between closed and open. */
  predicate WithinSwing(p: DoorPose)
  {
    Between(p.currentYaw, p.initialYaw, p.openAngle)
  }

  /** Whether a frame swings the door: it opens, or it is away from closed and the close delay has passed. */
  predicate Moves(c: DoorConfig, p: DoorPose, now: real, overlaps: bool)
  {
    (c.hasPressurePlate && overlaps) || (p.currentYaw != p.initialYaw && now - p.doorLastOpened >= c.doorCloseDelay)
  }

  /** One frame of the door. */
  function TickDoor(c: DoorConfig, p: DoorPose, dt: real, now: real, overlaps: bool): (r: DoorPose)
    ensures r.initialYaw == p.initialYaw && r.openAngle == p.openAngle
    ensures c.hasPressurePlate && overlaps ==>
      r.currentYaw == Lerp(p.currentYaw, p.openAngle, c.doorOpenSpeed * dt) && r.doorLastOpened == now
    ensures !(c.hasPressurePlate && overlaps) ==> r.doorLastOpened == p.doorLastOpened
    ensures !(c.hasPressurePlate && overlaps) && (p.currentYaw == p.initialYaw || now - p.doorLastOpened < c.doorCloseDelay) ==> r == p
    ensures !(c.hasPressurePlate && overlaps) && p.currentYaw != p.initialYaw && now - p.doorLastOpened >= c.doorCloseDelay ==>
      r.currentYaw == Lerp(p.currentYaw, p.initialYaw, c.doorCloseSpeed * dt)
    ensures FactorsInRange(c, dt) && c.hasPressurePlate && overlaps ==>
      Between(r.currentYaw, p.currentYaw, p.openAngle)
    ensures FactorsInRange(c, dt) && !(c.hasPressurePlate && overlaps) ==>
      Between(r.currentYaw, p.currentYaw, p.initialYaw)
    ensures FactorsInRange(c, dt) && WithinSwing(p) ==> WithinSwing(r)
    ensures !Moves(c, p, now, overlaps) ==> r == p
  {
    if c.hasPressurePlate && overlaps then
      p.(currentYaw := Lerp(p.currentYaw, p.openAngle, c.doorOpenSpeed * dt), doorLastOpened := now)
    else if p.currentYaw != p.initialYaw then
      if now - p.doorLastOpened >= c.doorCloseDelay then
        p.(currentYaw := Lerp(p.currentYaw, p.initialYaw, c.doorCloseSpeed * dt))
      else p
    else p
  }

  /** The door after a whole sequence of frames. */
  function RunDoor(c: DoorConfig, p: DoorPose, frames: seq<DoorInput>): DoorPose
    decreases |frames|
  {
    if frames == [] then p
    else RunDoor(c, TickDoor(c, p, frames[0].deltaTime, frames[0].now, frames[0].openerOverlaps), frames[1..])
  }

  /** With lerp factors in [0,1] on every frame, the yaw never leaves the swing, whatever the frames. */
  lemma {:induction false} RunStaysWithinSwing(c: DoorConfig, p: DoorPose, frames: seq<DoorInput>)
    requires WithinSwing(p)
    requires forall k :: 0 <= k < |frames| ==> FactorsInRange(c, frames[k].deltaTime)
    ensures WithinSwing(RunDoor(c, p, frames))
    ensures RunDoor(c, p, frames).initialYaw == p.initialYaw && RunDoor(c, p, frames).openAngle == p.openAngle
    decreases |frames|
  {
    if frames != [] {
      var f := frames[0];
      RunStaysWithinSwing(c, TickDoor(c, p, f.deltaTime, f.now, f.openerOverlaps), frames[1..]);
    }
  }

  /**
    A door without a pressure plate never opens: its last-opened time never
    changes and, with close factors in [0,1], its yaw only ever moves back toward
    the initial yaw, staying between where it started and the initial yaw.
   */
  lemma {:induction false} NoPlateNeverOpens(c: DoorConfig, p: DoorPose, frames: seq<DoorInput>)
    requires !c.hasPressurePlate
    requires forall k :: 0 <= k < |frames| ==> FactorsInRange(c, frames[k].deltaTime)
    ensures RunDoor(c, p, frames).doorLastOpened == p.doorLastOpened
    ensures Between(RunDoor(c, p, frames).currentYaw, p.currentYaw, p.initialYaw)
    decreases |frames|
  {
    if frames != [] {
      var f := frames[0];
      var p' := TickDoor(c, p, f.deltaTime, f.now, f.openerOverlaps);
      NoPlateNeverOpens(c, p', frames[1..]);
    }
  }

  class OpenDoor {
    var hasPressurePlate: bool
    var actorThatOpens: Option<ActorId>
    var doorCloseDelay: real
    var doorOpenSpeed: real
    var doorCloseSpeed: real
    /** Configured as an angle relative to the closed door; absolute after BeginPlay. */
    var openAngle: real
    var initialYaw: real
    var currentYaw: real
    var doorLastOpened: real
    /** The rotation last applied to the owning actor. */
    var doorRotation: Rotator

    ghost function Config(): DoorConfig
      reads this
    {
      DoorConfig(hasPressurePlate, doorCloseDelay, doorOpenSpeed, doorCloseSpeed)
    }

    ghost function Pose(): DoorPose
      reads this
    {
      DoorPose(initialYaw, currentYaw, openAngle, doorLastOpened)
    }

    /** The rotation applied to the owner agrees with the tracked yaw. */
    ghost predicate Synced()
      reads this
    {
      doorRotation.yaw == currentYaw
    }

    /** A door component as the editor configures it, before play starts (fields zero-initialised). */
    constructor (hasPressurePlate: bool, openAngle: real, doorCloseDelay: real, doorOpenSpeed: real, doorCloseSpeed: real)
      ensures Config() == DoorConfig(hasPressurePlate, doorCloseDelay, doorOpenSpeed, doorCloseSpeed)
      ensures this.openAngle == openAngle && doorLastOpened == 0.0 && actorThatOpens.None?
      ensures initialYaw == 0.0 && currentYaw == 0.0 && doorRotation == Rotator(0.0, 0.0, 0.0)
    {
      this.hasPressurePlate := hasPressurePlate;
      this.openAngle := openAngle;
      this.doorCloseDelay := doorCloseDelay;
      this.doorOpenSpeed := doorOpenSpeed;
      this.doorCloseSpeed := doorCloseSpeed;
      actorThatOpens := None;
      initialYaw := 0.0;
      currentYaw := 0.0;
      doorLastOpened := 0.0;
      doorRotation := Rotator(0.0, 0.0, 0.0);
    }

    /** A door component with the header's defaults: no plate assigned yet, 90 degrees, 0.3 s delay, speeds 0.5 and 1.5. */
    constructor Default()
      ensures Config() == DoorConfig(false, DefaultDoorCloseDelay, DefaultDoorOpenSpeed, DefaultDoorCloseSpeed)
      ensures openAngle == DefaultOpenAngle && doorLastOpened == 0.0 && actorThatOpens.None?
      ensures initialYaw == 0.0 && currentYaw == 0.0 && doorRotation == Rotator(0.0, 0.0, 0.0)
    {
      hasPressurePlate := false;
      openAngle := DefaultOpenAngle;
      doorCloseDelay := DefaultDoorCloseDelay;
      doorOpenSpeed := DefaultDoorOpenSpeed;
      doorCloseSpeed := DefaultDoorCloseSpeed;
      actorThatOpens := None;
      initialYaw := 0.0;
      currentYaw := 0.0;
      doorLastOpened := 0.0;
      doorRotation := Rotator(0.0, 0.0, 0.0);
    }

    /** Record the owner's rotation as the closed pose and make the open angle absolute. */
    method BeginPlay(ownerRotation: Rotator, playerPawn: Option<ActorId>)
      modifies this
      ensures doorRotation == ownerRotation
      ensures initialYaw == ownerRotation.yaw && currentYaw == initialYaw
      ensures openAngle == old(openAngle) + initialYaw
      ensures doorLastOpened == old(doorLastOpened) && Config() == old(Config())
      ensures actorThatOpens == playerPawn
      ensures Synced() && WithinSwing(Pose())
    {
      doorRotation := ownerRotation;
      initialYaw := doorRotation.yaw;
      openAngle := openAngle + initialYaw;
      currentYaw := initialYaw;
      actorThatOpens := playerPawn;
    }

    /** One frame: open while the opener is on the plate, else close once the delay has passed. */
    method TickComponent(deltaTime: real, now: real, openerOverlaps: bool)
      modifies this
      ensures Pose() == TickDoor(old(Config()), old(Pose()), deltaTime, now, openerOverlaps)
      ensures Config() == old(Config()) && actorThatOpens == old(actorThatOpens)
      ensures doorRotation.pitch == old(doorRotation.pitch) && doorRotation.roll == old(doorRotation.roll)
      ensures Moves(old(Config()), old(Pose()), now, openerOverlaps) ==> doorRotation == old(doorRotation).(yaw := currentYaw)
      ensures !Moves(old(Config()), old(Pose()), now, openerOverlaps) ==> doorRotation == old(doorRotation)
      ensures old(Synced()) ==> Synced()
      ensures FactorsInRange(Config(), deltaTime) && old(WithinSwing(Pose())) ==> WithinSwing(Pose())
    {
      if hasPressurePlate && openerOverlaps {
        OpenDoor(deltaTime);
        doorLastOpened := now;
      } else if currentYaw != initialYaw {
        if now - doorLastOpened >= doorCloseDelay {
          CloseDoor(deltaTime);
        }
      }
    }

    /** Swing one frame toward the open angle. */
    method OpenDoor(deltaTime: real)
      modifies this`doorRotation, this`currentYaw
      ensures doorRotation == old(doorRotation).(yaw := Lerp(old(currentYaw), openAngle, doorOpenSpeed * deltaTime))
      ensures Synced()
    {
      doorRotation := doorRotation.(yaw := Lerp(currentYaw, openAngle, doorOpenSpeed * deltaTime));
      currentYaw := doorRotation.yaw;
    }

    /** Swing one frame back toward the initial yaw. */
    method CloseDoor(deltaTime: real)
      modifies this`doorRotation, this`currentYaw
      ensures doorRotation == old(doorRotation).(yaw := Lerp(old(currentYaw), initialYaw, doorCloseSpeed * deltaTime))
      ensures Synced()
    {
      doorRotation := doorRotation.(yaw := Lerp(currentYaw, initialYaw, doorCloseSpeed * deltaTime));
      currentYaw := doorRotation.yaw;
    }
  }
}
