/**
  The `OceanWaves` relaxation player: the shared session countdown instantiated with the
  component's own constants. The looping `waves.mp3` audio and the breathing animation
  are not modelled.
*/
module Waves {
  import opened Wrappers
  import opened SessionTimer

  /** Seconds in one breath cycle of the animation. */
  const BREATH_DURATION: int := 8

  /** Five minutes, in seconds. */
  const SESSION_DURATION: Duration := 5 * 60

  /** The player as first rendered: paused, volume 50, no progress, the full five minutes left. */
  function Mounted(): (t: Timer)
    ensures !t.isPlaying && t.volume == 50 && t.progress == 0.0 && t.timeLeft == 300
    ensures Valid(SESSION_DURATION, t)
  {
    Initial(SESSION_DURATION)
  }

  /** The label at the right end of the progress bar reads `5:00`. */
  lemma SessionLabel()
    ensures FormatTime(SESSION_DURATION) == "5:00"
  {
    FormatTimeShape(SESSION_DURATION);
    assert SecondsField(SESSION_DURATION) == "00";
  }

  /**
    Whatever the user does, the remaining time stays within the five minutes and the label
    under the bar reads it back exactly.
  */
  lemma CountdownInRange(es: seq<Event>)
    requires forall i :: 0 <= i < |es| ==> WellFormed(es[i])
    ensures var t := Replay(SESSION_DURATION, es);
            0 <= t.timeLeft <= 300 && ParseClock(FormatTime(t.timeLeft)) == Some(t.timeLeft)
  {
    ReplayValid(SESSION_DURATION, es);
    FormatTimeRoundTrip(Replay(SESSION_DURATION, es).timeLeft);
  }
}
