/**
  The `FObjectToRotate` record of the character header and the pure meaning
  of the two operations the character performs on its table of such records:
  a press on the rotatable channel (`Probed`) and one frame of rotation
  (`Advance`). The character class proves its imperative loops equal to these.
 */
module RotationSlots {
  import opened Engine

  /** Editor default of the increment added to a target yaw per press. */
  const DefaultAmountToRotate: real := 90.0
  /** Editor default of the interaction reach. */
  const DefaultReach: real := 200.0
  /** Lerp factor per second used while an object rotates. */
  const RotateRate: real := 1.6
  /** Distance to the target below which a rotation snaps and stops. */
  const SnapTolerance: real := 0.4

  /**
    One slot of the table. `hasAudio` stands for a non-null audio component:
    only its presence matters to the state, because a missing one ends the
    probe early.
   */
  datatype ObjectToRotate = ObjectToRotate(
    actorToRotate: Option<ActorId>,
    actorRotation: Rotator,
    originalActorYaw: real,
    targetRotation: real,
    isRotating: bool,
    hasAudio: bool)

  /** A slot the probe may fill: no actor and not rotating. */
  predicate IsFree(e: ObjectToRotate)
  {
    e.actorToRotate.None? && !e.isRotating
  }

  /** The value of a default-constructed record: an empty slot with every number at -1. */
  function DefaultObjectToRotate(): (r: ObjectToRotate)
    ensures IsFree(r) && !r.hasAudio
    ensures r.actorRotation == Rotator(-1.0, -1.0, -1.0)
    ensures r.originalActorYaw == -1.0 && r.targetRotation == -1.0
  {
    ObjectToRotate(None, Rotator(-1.0, -1.0, -1.0), -1.0, -1.0, false, false)
  }

  /** No actor occupies two slots. */
  predicate NoDuplicates(s: seq<ObjectToRotate>)
  {
    forall j, k :: 0 <= j < k < |s| && s[j].actorToRotate.Some? ==> s[j].actorToRotate != s[k].actorToRotate
  }

  /** Every rotating slot names an actor, so the per-frame rotation never applies to a null actor. */
  predicate RotatingHaveActors(s: seq<ObjectToRotate>)
  {
    forall k :: 0 <= k < |s| && s[k].isRotating ==> s[k].actorToRotate.Some?
  }

  /** The first free slot, if any. */
  function FirstFree(s: seq<ObjectToRotate>): (r: Option<nat>)
    ensures r.Some? ==> r.value < |s| && IsFree(s[r.value])
    ensures r.Some? ==> forall k :: 0 <= k < r.value ==> !IsFree(s[k])
    ensures r.None? ==> forall k :: 0 <= k < |s| ==> !IsFree(s[k])
  {
    if s == [] then None
    else if IsFree(s[0]) then Some(0)
    else match FirstFree(s[1..])
      case None => None
      case Some(k) => Some(k + 1)
  }

  /** The first slot holding actor `x`, if any. */
  function IndexOf(s: seq<ObjectToRotate>, x: ActorId): (r: Option<nat>)
    ensures r.Some? ==> r.value < |s| && s[r.value].actorToRotate == Some(x)
    ensures r.Some? ==> forall k :: 0 <= k < r.value ==> s[k].actorToRotate != Some(x)
    ensures r.None? ==> forall k :: 0 <= k < |s| ==> s[k].actorToRotate != Some(x)
  {
    if s == [] then None
    else if s[0].actorToRotate == Some(x) then Some(0)
    else match IndexOf(s[1..], x)
      case None => None
      case Some(k) => Some(k + 1)
  }

  /** `e` has just been armed from the actor rotation `rot`. */
  predicate ArmedFrom(e: ObjectToRotate, rot: Rotator, inc: real)
  {
    && e.actorRotation == rot
    && e.originalActorYaw == rot.yaw
    && e.targetRotation == rot.yaw + inc
    && e.isRotating
  }

  /** A fresh entry for actor `x`, whose current rotation is `rot`. */
  function NewEntry(x: ActorId, audio: bool, rot: Rotator, inc: real): (r: ObjectToRotate)
    ensures r.actorToRotate == Some(x) && r.hasAudio == audio
    ensures ArmedFrom(r, rot, inc)
  {
    ObjectToRotate(Some(x), rot, rot.yaw, rot.yaw + inc, true, audio)
  }

  /** The rounded recorded yaw differs from the rounded original yaw. */
  predicate HasTurned(e: ObjectToRotate)
  {
    RoundToFloat(e.actorRotation.yaw) != RoundToFloat(e.originalActorYaw)
  }

  /**
    What a press does to the entry of the hit actor: a finished entry is
    re-armed, a rotating one that has visibly turned gets its target pushed
    by `inc`, and a rotating one that has not turned yet is left alone.
   */
  function Poked(e: ObjectToRotate, rot: Rotator, inc: real): (r: ObjectToRotate)
    ensures r.actorToRotate == e.actorToRotate && r.hasAudio == e.hasAudio && r.isRotating
    ensures !e.isRotating ==> ArmedFrom(r, rot, inc)
    ensures e.isRotating ==> r.actorRotation == e.actorRotation && r.originalActorYaw == e.originalActorYaw
    ensures e.isRotating ==> r.targetRotation == e.targetRotation + (if HasTurned(e) then inc else 0.0)
  {
    if !e.isRotating then
      e.(actorRotation := rot, originalActorYaw := rot.yaw, targetRotation := rot.yaw + inc, isRotating := true)
    else if HasTurned(e) then
      e.(targetRotation := e.targetRotation + inc)
    else
      e
  }

  /**
    The table after a press on the rotatable channel, keyed by actor: a miss
    changes nothing; an actor already in the table has its entry poked; a new
    actor takes the first free slot, or is dropped when there is none.
    `rot` and `audio` are the hit actor's rotation and whether it carries an
    audio component.
   */
  function Probed(s: seq<ObjectToRotate>, hit: Option<ActorId>, rot: Rotator, audio: bool, inc: real): (r: seq<ObjectToRotate>)
    ensures |r| == |s|
    ensures hit.None? ==> r == s
    ensures forall k :: 0 <= k < |s| && r[k] != s[k] ==> hit.Some? && r[k].actorToRotate == hit
  {
    match hit
    case None => s
    case Some(x) =>
      match IndexOf(s, x)
      case Some(k) => s[k := Poked(s[k], rot, inc)]
      case None =>
        match FirstFree(s)
        case Some(k) => s[k := NewEntry(x, audio, rot, inc)]
        case None => s
  }

  /** A press whose hit reaches no audio-less entry on the branch that dereferences its audio component. */
  predicate ProbeSafe(s: seq<ObjectToRotate>, hit: Option<ActorId>)
  {
    forall k :: 0 <= k < |s| && hit.Some? && s[k].actorToRotate == hit && s[k].isRotating && HasTurned(s[k]) ==> s[k].hasAudio
  }

  /** The entry of slot `k` after a press, stated slot by slot. */
  lemma {:induction false} ProbedAt(s: seq<ObjectToRotate>, x: ActorId, rot: Rotator, audio: bool, inc: real, k: nat)
    requires NoDuplicates(s) && k < |s|
    ensures Probed(s, Some(x), rot, audio, inc)[k] ==
      if s[k].actorToRotate == Some(x) then Poked(s[k], rot, inc)
      else if IndexOf(s, x).None? && FirstFree(s) == Some(k) then NewEntry(x, audio, rot, inc)
      else s[k]
  {
  }

  /**
    Part way through the character's pass over the table (slots before `i`
    already final, the rest untouched), the hit actor is somewhere in the
    table exactly when it was there from the start or has just been written
    into the first free slot.
   */
  lemma PartialProbeHolds(s: seq<ObjectToRotate>, x: ActorId, rot: Rotator, audio: bool, inc: real, cur: seq<ObjectToRotate>, i: nat)
    requires NoDuplicates(s) && |cur| == |s| && i <= |s|
    requires forall k :: 0 <= k < i ==> cur[k] == Probed(s, Some(x), rot, audio, inc)[k]
    requires forall k :: i <= k < |s| ==> cur[k] == s[k]
    ensures (exists k :: 0 <= k < |cur| && cur[k].actorToRotate == Some(x))
      <==> IndexOf(s, x).Some? || (FirstFree(s).Some? && FirstFree(s).value < i)
  {
    var p := Probed(s, Some(x), rot, audio, inc);
    match IndexOf(s, x)
    case Some(m) =>
      if m < i { assert p[m] == Poked(s[m], rot, inc); }
      assert cur[m].actorToRotate == Some(x);
    case None =>
      if FirstFree(s).Some? && FirstFree(s).value < i {
        var f := FirstFree(s).value;
        assert cur[f] == NewEntry(x, audio, rot, inc);
      } else {
        forall k | 0 <= k < |cur| ensures cur[k].actorToRotate != Some(x) {
          if k < i { assert p[k] == s[k]; }
        }
      }
  }

  /**
    Once the pass has changed the slot of the hit actor, or filled the first
    free slot, nothing after it changes: stopping there already gives the
    whole result.
   */
  lemma PartialProbeComplete(s: seq<ObjectToRotate>, x: ActorId, rot: Rotator, audio: bool, inc: real, cur: seq<ObjectToRotate>, i: nat)
    requires NoDuplicates(s) && |cur| == |s| && i < |s|
    requires forall k :: 0 <= k <= i ==> cur[k] == Probed(s, Some(x), rot, audio, inc)[k]
    requires forall k :: i < k < |s| ==> cur[k] == s[k]
    requires s[i].actorToRotate == Some(x) || (IndexOf(s, x).None? && FirstFree(s) == Some(i))
    ensures cur == Probed(s, Some(x), rot, audio, inc)
  {
    var p := Probed(s, Some(x), rot, audio, inc);
    forall k | i < k < |s| ensures cur[k] == p[k] {
      ProbedAt(s, x, rot, audio, inc, k);
    }
  }

  /**
    Slot `i` of a press, in the terms the character's pass decides it: `should`
    is its "make a new entry" flag, which is set whenever the hit actor is new
    and the first free slot is not before `i`, and on an empty slot only then.
   */
  lemma ProbeSlot(s: seq<ObjectToRotate>, x: ActorId, rot: Rotator, audio: bool, inc: real, i: nat, should: bool)
    requires NoDuplicates(s) && i < |s|
    requires IndexOf(s, x).None? && (FirstFree(s).None? || FirstFree(s).value >= i) ==> should
    requires should && s[i].actorToRotate.None? ==> IndexOf(s, x).None? && (FirstFree(s).None? || FirstFree(s).value >= i)
    ensures var e := s[i]; var r := Probed(s, Some(x), rot, audio, inc)[i];
      if !e.isRotating && e.actorToRotate == Some(x) then r == Poked(e, rot, inc)
      else if should && !e.isRotating && e.actorToRotate.None? then r == NewEntry(x, audio, rot, inc) && FirstFree(s) == Some(i)
      else if e.actorToRotate == Some(x) && e.isRotating && HasTurned(e) then r == Poked(e, rot, inc)
      else r == s[i]
  {
    ProbedAt(s, x, rot, audio, inc, i);
  }

  /** A table with no slots ignores every press. */
  lemma EmptyTableIgnoresProbe(hit: Option<ActorId>, rot: Rotator, audio: bool, inc: real)
    ensures Probed([], hit, rot, audio, inc) == []
  {
  }

  /** In a table of `n > 0` default slots, a press on any actor starts it rotating in slot 0. */
  lemma FreshTableTakesNewActor(n: nat, x: ActorId, rot: Rotator, audio: bool, inc: real)
    requires n > 0
    ensures Probed(seq(n, _ => DefaultObjectToRotate()), Some(x), rot, audio, inc)
      == seq(n, _ => DefaultObjectToRotate())[0 := NewEntry(x, audio, rot, inc)]
  {
    var s := seq(n, _ => DefaultObjectToRotate());
    assert IsFree(s[0]);
    ProbeFillsFirstFree(s, x, rot, audio, inc, 0);
  }

  /** A new actor is written only over a free slot, and only if it is held by no slot. */
  lemma ProbeOverwritesOnlyFreeSlot(s: seq<ObjectToRotate>, hit: Option<ActorId>, rot: Rotator, audio: bool, inc: real, k: nat)
    requires k < |s|
    requires Probed(s, hit, rot, audio, inc)[k].actorToRotate != s[k].actorToRotate
    ensures IsFree(s[k]) && Probed(s, hit, rot, audio, inc)[k].actorToRotate == hit
    ensures forall j :: 0 <= j < |s| ==> s[j].actorToRotate != hit
  {
    var x := hit.value;
    assert IndexOf(s, x).None?;
  }

  /** At most one slot changes per press. */
  lemma ProbeChangesAtMostOneSlot(s: seq<ObjectToRotate>, hit: Option<ActorId>, rot: Rotator, audio: bool, inc: real, j: nat, k: nat)
    requires j < |s| && k < |s|
    requires Probed(s, hit, rot, audio, inc)[j] != s[j] && Probed(s, hit, rot, audio, inc)[k] != s[k]
    ensures j == k
  {
  }

  /** If no actor occupied two slots before a press, none does after it. */
  lemma ProbePreservesNoDuplicates(s: seq<ObjectToRotate>, hit: Option<ActorId>, rot: Rotator, audio: bool, inc: real)
    requires NoDuplicates(s)
    ensures NoDuplicates(Probed(s, hit, rot, audio, inc))
  {
    var r := Probed(s, hit, rot, audio, inc);
    if hit.Some? && IndexOf(s, hit.value).None? && FirstFree(s).Some? {
      var f := FirstFree(s).value;
      forall j, k | 0 <= j < k < |r| && r[j].actorToRotate.Some?
        ensures r[j].actorToRotate != r[k].actorToRotate
      {
        if j != f && k != f {
          assert r[j] == s[j] && r[k] == s[k];
        }
      }
    }
  }

  /** A press only sets rotating the slot of the hit actor, so every rotating slot still names an actor. */
  lemma ProbeKeepsRotatingActors(s: seq<ObjectToRotate>, hit: Option<ActorId>, rot: Rotator, audio: bool, inc: real)
    requires RotatingHaveActors(s)
    ensures RotatingHaveActors(Probed(s, hit, rot, audio, inc))
  {
  }

  /** An entry the press creates or re-arms starts from the actor's yaw and aims `inc` beyond it. */
  lemma ProbeArmsFromCurrentYaw(s: seq<ObjectToRotate>, hit: Option<ActorId>, rot: Rotator, audio: bool, inc: real, k: nat)
    requires k < |s|
    requires Probed(s, hit, rot, audio, inc)[k] != s[k] && !s[k].isRotating
    ensures ArmedFrom(Probed(s, hit, rot, audio, inc)[k], rot, inc)
  {
  }

  /**
    Pressing an actor whose entry is mid-rotation adds exactly `inc` to its
    target and leaves every other field alone when its rounded yaw has moved
    off the rounded original yaw, and changes nothing at all when it has not.
   */
  lemma ProbeExtendsRotating(s: seq<ObjectToRotate>, x: ActorId, rot: Rotator, audio: bool, inc: real, k: nat)
    requires NoDuplicates(s) && k < |s|
    requires s[k].actorToRotate == Some(x) && s[k].isRotating
    ensures HasTurned(s[k]) ==> Probed(s, Some(x), rot, audio, inc) == s[k := s[k].(targetRotation := s[k].targetRotation + inc)]
    ensures !HasTurned(s[k]) ==> Probed(s, Some(x), rot, audio, inc) == s
  {
    var r := Probed(s, Some(x), rot, audio, inc);
    forall j | 0 <= j < |s| ensures r[j] == if j == k then Poked(s[k], rot, inc) else s[j] {
      ProbedAt(s, x, rot, audio, inc, j);
    }
  }

  /** Pressing a new actor when the table has room fills the first free slot with a fresh entry. */
  lemma ProbeFillsFirstFree(s: seq<ObjectToRotate>, x: ActorId, rot: Rotator, audio: bool, inc: real, k: nat)
    requires k < |s| && IsFree(s[k])
    requires forall j :: 0 <= j < |s| ==> s[j].actorToRotate != Some(x)
    ensures FirstFree(s).Some? && FirstFree(s).value <= k
    ensures Probed(s, Some(x), rot, audio, inc) == s[FirstFree(s).value := NewEntry(x, audio, rot, inc)]
  {
    assert IndexOf(s, x).None?;
  }

  /** One frame of rotation of one slot, with frame time `dt`. */
  function Advance(e: ObjectToRotate, dt: real): (r: ObjectToRotate)
    ensures !e.isRotating ==> r == e
    ensures r.actorToRotate == e.actorToRotate && r.hasAudio == e.hasAudio
    ensures r.originalActorYaw == e.originalActorYaw && r.targetRotation == e.targetRotation
    ensures r.actorRotation.pitch == e.actorRotation.pitch && r.actorRotation.roll == e.actorRotation.roll
    ensures e.isRotating && !r.isRotating ==> r.actorRotation.yaw == e.targetRotation
    ensures e.isRotating && r.isRotating ==> Abs(e.targetRotation - r.actorRotation.yaw) >= SnapTolerance
    ensures 0.0 <= RotateRate * dt <= 1.0 ==>
      && Between(r.actorRotation.yaw, e.actorRotation.yaw, e.targetRotation)
      && Abs(e.targetRotation - r.actorRotation.yaw) <= Abs(e.targetRotation - e.actorRotation.yaw)
  {
    if !e.isRotating then e
    else
      var yaw := Lerp(e.actorRotation.yaw, e.targetRotation, RotateRate * dt);
      if Abs(e.targetRotation - yaw) < SnapTolerance then
        e.(actorRotation := e.actorRotation.(yaw := e.targetRotation), isRotating := false)
      else
        e.(actorRotation := e.actorRotation.(yaw := yaw))
  }

  /** `n` frames of rotation of one slot, all with frame time `dt`. */
  function AdvanceN(e: ObjectToRotate, dt: real, n: nat): ObjectToRotate
    decreases n
  {
    if n == 0 then e else AdvanceN(Advance(e, dt), dt, n - 1)
  }

  /** A slot that is not rotating stays exactly as it is. */
  lemma {:induction false} SettledStaysSettled(e: ObjectToRotate, dt: real, n: nat)
    requires !e.isRotating
    ensures AdvanceN(e, dt, n) == e
  {
    if n > 0 {
      SettledStaysSettled(Advance(e, dt), dt, n - 1);
    }
  }

  /** While a slot keeps rotating, each frame takes it at least `0.4 * alpha` closer to its target. */
  lemma Approaches(e: ObjectToRotate, dt: real)
    requires e.isRotating && 0.0 < RotateRate * dt <= 1.0
    requires Advance(e, dt).isRotating
    ensures Abs(e.targetRotation - Advance(e, dt).actorRotation.yaw)
      <= Abs(e.targetRotation - e.actorRotation.yaw) - SnapTolerance * (RotateRate * dt)
  {
    var a := RotateRate * dt;
    var d := Abs(e.targetRotation - e.actorRotation.yaw);
    var d' := Abs(e.targetRotation - Advance(e, dt).actorRotation.yaw);
    assert d' == (1.0 - a) * d;
    assert d >= SnapTolerance;
    assert a * d >= a * SnapTolerance;
  }

  /**
    A rotating slot snaps to its target and stops within `n + 1` frames when its
    distance to the target is below `0.4 * (1 + n * alpha)`.
   */
  lemma {:induction false} SnapsWithin(e: ObjectToRotate, dt: real, n: nat)
    requires e.isRotating && 0.0 < RotateRate * dt <= 1.0
    requires Abs(e.targetRotation - e.actorRotation.yaw) < SnapTolerance * (1.0 + (n as real) * (RotateRate * dt))
    ensures !AdvanceN(e, dt, n + 1).isRotating
    ensures AdvanceN(e, dt, n + 1).actorRotation.yaw == e.targetRotation
    ensures AdvanceN(e, dt, n + 1).targetRotation == e.targetRotation
    decreases n
  {
    var e' := Advance(e, dt);
    assert AdvanceN(e, dt, n + 1) == AdvanceN(e', dt, n);
    if !e'.isRotating {
      SettledStaysSettled(e', dt, n);
    } else {
      StepWithin(e, dt, n);
      SnapsWithin(e', dt, n - 1);
    }
  }

  /** One frame that does not snap uses up one frame of the bound of `SnapsWithin`. */
  lemma StepWithin(e: ObjectToRotate, dt: real, n: nat)
    requires e.isRotating && 0.0 < RotateRate * dt <= 1.0
    requires Abs(e.targetRotation - e.actorRotation.yaw) < SnapTolerance * (1.0 + (n as real) * (RotateRate * dt))
    requires Advance(e, dt).isRotating
    ensures n >= 1
    ensures Abs(Advance(e, dt).targetRotation - Advance(e, dt).actorRotation.yaw) < SnapTolerance * (1.0 + ((n - 1) as real) * (RotateRate * dt))
  {
    Approaches(e, dt);
    BoundShrinks(Abs(e.targetRotation - e.actorRotation.yaw), Abs(e.targetRotation - Advance(e, dt).actorRotation.yaw), RotateRate * dt, n);
  }

  /** The arithmetic step of `SnapsWithin`: a frame that does not snap uses up one frame of the bound. */
  lemma BoundShrinks(d: real, d': real, a: real, n: nat)
    requires 0.0 < a && d' >= SnapTolerance && d' <= d - SnapTolerance * a
    requires d < SnapTolerance * (1.0 + (n as real) * a)
    ensures n >= 1 && d' < SnapTolerance * (1.0 + ((n - 1) as real) * a)
  {
    if n > 0 {
      assert SnapTolerance * (1.0 + (n as real) * a) - SnapTolerance * a
          == SnapTolerance * (1.0 + ((n - 1) as real) * a);
    }
  }

  /**
    Every rotation terminates: with a fixed frame time whose lerp factor lies
    in (0,1], a rotating slot reaches exactly its target and stops rotating.
   */
  lemma RotationTerminates(e: ObjectToRotate, dt: real)
    requires e.isRotating && 0.0 < RotateRate * dt <= 1.0
    ensures exists n: nat :: !AdvanceN(e, dt, n).isRotating && AdvanceN(e, dt, n).actorRotation.yaw == e.targetRotation
  {
    var a := RotateRate * dt;
    var d := Abs(e.targetRotation - e.actorRotation.yaw);
    var q := d / (SnapTolerance * a);
    assert q * (SnapTolerance * a) == d;
    var n: nat := q.Floor;
    assert (n as real) > q - 1.0;
    assert (n as real + 1.0) * (SnapTolerance * a) > q * (SnapTolerance * a);
    assert SnapTolerance * (1.0 + (n as real) * a) >= (n as real + 1.0) * (SnapTolerance * a);
    SnapsWithin(e, dt, n);
  }

  /** A quarter turn from yaw 0 with 16 ms frames (lerp factor 0.0256) ends exactly on 90 and stops within 8790 frames. */
  lemma QuarterTurnSettles(e: ObjectToRotate)
    requires e.isRotating && e.actorRotation.yaw == 0.0 && e.targetRotation == 90.0
    ensures !AdvanceN(e, 0.016, 8790).isRotating && AdvanceN(e, 0.016, 8790).actorRotation.yaw == 90.0
  {
    SnapsWithin(e, 0.016, 8789);
  }
}
