/**
  The win volume: the first frame on which the winning actor overlaps it, the
  screen fades to black and a timer is set that loads the win level. A latch
  makes this happen once per session. Camera fade, timer and level loading
  are recorded as effects.
 */
module WinGame {
  import opened Engine

  const WinLevelName: string := "WinScreenLevel"

  /** An engine call issued by the component. */
  datatype Effect =
    | StartCameraFade(fromAlpha: real, toAlpha: real, duration: real)
    | SetTimer(rate: real, looping: bool)
    | OpenLevel(levelName: string, absolute: bool)

  /** What firing the latch issues: a 0-to-1 fade over 2 s, then a one-shot 2 s timer. */
  const WinSequence: seq<Effect> := [StartCameraFade(0.0, 1.0, 2.0), SetTimer(2.0, false)]

  /** One frame of the latch: the next armed flag and whether it fired. */
  function LatchStep(armed: bool, overlapping: bool): (r: (bool, bool))
    ensures r.1 <==> armed && overlapping
    ensures r.1 ==> !r.0
    ensures !r.1 ==> r.0 == armed
  {
    if overlapping && armed then (false, true) else (armed, false)
  }

  /** The effects issued over a sequence of frames, given the overlap on each. */
  function RunLatch(armed: bool, overlaps: seq<bool>): seq<Effect>
    decreases |overlaps|
  {
    if overlaps == [] then []
    else
      var (armed', fired) := LatchStep(armed, overlaps[0]);
      (if fired then WinSequence else []) + RunLatch(armed', overlaps[1..])
  }

  /**
    Over any sequence of frames, even with the overlap held throughout, the
    fade and timer are issued exactly once if the latch starts armed and some
    frame overlaps, and never otherwise.
   */
  lemma {:induction false} FiresAtMostOnce(armed: bool, overlaps: seq<bool>)
    ensures RunLatch(armed, overlaps) == if armed && true in overlaps then WinSequence else []
    decreases |overlaps|
  {
    if overlaps != [] {
      var (armed', fired) := LatchStep(armed, overlaps[0]);
      FiresAtMostOnce(armed', overlaps[1..]);
      assert true in overlaps <==> overlaps[0] || true in overlaps[1..] by {
        assert overlaps == [overlaps[0]] + overlaps[1..];
      }
    }
  }

  /** Number of camera fades in an effect log. */
  function FadeCount(es: seq<Effect>): nat
    decreases |es|
  {
    if es == [] then 0
    else (if es[0].StartCameraFade? then 1 else 0) + FadeCount(es[1..])
  }

  lemma {:induction false} FadeCountAppend(a: seq<Effect>, b: seq<Effect>)
    ensures FadeCount(a + b) == FadeCount(a) + FadeCount(b)
    decreases |a|
  {
    if a == [] {
      assert a + b == b;
    } else {
      assert (a + b)[1..] == a[1..] + b;
      FadeCountAppend(a[1..], b);
    }
  }

  class WinGameComponent {
    var canLoadWinLevel: bool
    var hasTriggerVolume: bool
    var actorThatWins: Option<ActorId>
    /** The engine calls issued so far, oldest first. */
    var effects: seq<Effect>

    /** The screen has faded once if the latch is spent, and never while it is armed. */
    ghost predicate Valid()
      reads this
    {
      FadeCount(effects) == if canLoadWinLevel then 0 else 1
    }

    constructor (hasTriggerVolume: bool, actorThatWins: Option<ActorId>)
      ensures Valid() && canLoadWinLevel && effects == []
      ensures this.hasTriggerVolume == hasTriggerVolume && this.actorThatWins == actorThatWins
    {
      canLoadWinLevel := true;
      this.hasTriggerVolume := hasTriggerVolume;
      this.actorThatWins := actorThatWins;
      effects := [];
    }

    /** Default the winner to the player pawn when the editor left it unset. */
    method BeginPlay(playerPawn: Option<ActorId>)
      modifies this`actorThatWins
      ensures actorThatWins == if old(actorThatWins).None? then playerPawn else old(actorThatWins)
    {
      if actorThatWins.None? {
        actorThatWins := playerPawn;
      }
    }

    /** One frame: fire the fade and the level timer the first time the winner overlaps the volume. */
    method TickComponent(winnerOverlaps: bool)
      requires Valid() && hasTriggerVolume
      modifies this`canLoadWinLevel, this`effects
      ensures Valid()
      ensures (canLoadWinLevel, old(canLoadWinLevel) && !canLoadWinLevel) == LatchStep(old(canLoadWinLevel), winnerOverlaps)
      ensures effects == old(effects) + (if LatchStep(old(canLoadWinLevel), winnerOverlaps).1 then WinSequence else [])
    {
      if winnerOverlaps && canLoadWinLevel {
        canLoadWinLevel := false;
        FadeCountAppend(effects, WinSequence);
        effects := effects + WinSequence;
      }
    }

    /** The timer's callback: open the win level. */
    method LoadWinLevel()
      requires Valid()
      modifies this`effects
      ensures Valid()
      ensures effects == old(effects) + [OpenLevel(WinLevelName, false)]
    {
      FadeCountAppend(effects, [OpenLevel(WinLevelName, false)]);
      effects := effects + [OpenLevel(WinLevelName, false)];
    }
  }
}
