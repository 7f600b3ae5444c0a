/**
  The countdown behind the rain and ocean-waves relaxation sessions: a timer that, while
  playing, loses one second per interval tick and reports how much of the session has
  elapsed as a percentage, plus the `m:ss` label drawn under the progress bar.

  Both components carry an identical copy of this logic; here it is written once, for a
  session of any positive length, and instantiated by the `Rain` and `Waves` modules.
*/
module SessionTimer {
  import opened Wrappers
  import opened JsText

  /** A session length in seconds. */
  type Duration = n: int | 0 < n witness 1

  /** The component state that the countdown reads and writes (`useState` cells). */
  datatype Timer = Timer(isPlaying: bool, volume: int, progress: real, timeLeft: int)

  /** Percentage of a session of length `session` that has elapsed when `timeLeft` remain. */
  function ProgressAt(session: Duration, timeLeft: int): real {
    ((session - timeLeft) as real / session as real) * 100.0
  }

  /** What every reachable timer satisfies. */
  predicate Valid(session: Duration, t: Timer) {
    && 0 <= t.timeLeft <= session
    && 0 <= t.volume <= 100
    && t.progress == ProgressAt(session, t.timeLeft)
  }

  /** The state a freshly mounted player starts in. */
  function Initial(session: Duration): (t: Timer)
    ensures !t.isPlaying && t.volume == 50 && t.progress == 0.0 && t.timeLeft == session
    ensures Valid(session, t)
  {
    Timer(false, 50, 0.0, session)
  }

  /** The interval is only armed while playing with time remaining. */
  predicate Ticks(t: Timer) {
    t.isPlaying && t.timeLeft > 0
  }

  /**
    One firing of the one-second interval: the remaining time drops by one and progress is
    recomputed from the new remaining time. With the interval disarmed nothing happens.
  */
  function Tick(session: Duration, t: Timer): (r: Timer)
    ensures Ticks(t) ==> r.timeLeft == t.timeLeft - 1
                         && r.isPlaying == t.isPlaying && r.volume == t.volume
                         && r.progress == ProgressAt(session, r.timeLeft)
    ensures !Ticks(t) ==> r == t
  {
    if Ticks(t) then
      var newTime := t.timeLeft - 1;
      t.(timeLeft := newTime, progress := ProgressAt(session, newTime))
    else
      t
  }

  /** The play/pause button: flips `isPlaying` and nothing else. */
  function TogglePlay(t: Timer): (r: Timer)
    ensures r.isPlaying != t.isPlaying
    ensures r.volume == t.volume && r.progress == t.progress && r.timeLeft == t.timeLeft
  {
    t.(isPlaying := !t.isPlaying)
  }

  /** The volume slider (range 0..100, step 1): only the volume changes. */
  function SetVolume(t: Timer, v: int): (r: Timer)
    requires 0 <= v <= 100
    ensures r.volume == v
    ensures r.isPlaying == t.isPlaying && r.progress == t.progress && r.timeLeft == t.timeLeft
  {
    t.(volume := v)
  }

  /** Progress grows as the remaining time shrinks. */
  lemma ProgressAntitone(session: Duration, a: int, b: int)
    requires a <= b
    ensures ProgressAt(session, b) <= ProgressAt(session, a)
  {
    var s := session as real;
    assert (session - b) as real <= (session - a) as real;
    assert (session - b) as real / s <= (session - a) as real / s;
  }

  /** Progress is 0 at the start of a session, 100 exactly when no time is left, and in between otherwise. */
  lemma ProgressBounds(session: Duration, timeLeft: int)
    requires 0 <= timeLeft <= session
    ensures 0.0 <= ProgressAt(session, timeLeft) <= 100.0
    ensures ProgressAt(session, timeLeft) == 0.0 <==> timeLeft == session
    ensures ProgressAt(session, timeLeft) == 100.0 <==> timeLeft == 0
  {
    var s := session as real;
    var e := (session - timeLeft) as real;
    assert 0.0 <= e / s <= 1.0;
    if e / s == 1.0 { assert e == s; }
    if e / s == 0.0 { assert e == 0.0; }
  }

  /** A tick keeps the timer valid, never raises the remaining time and never lowers progress. */
  lemma TickPreservesValid(session: Duration, t: Timer)
    requires Valid(session, t)
    ensures Valid(session, Tick(session, t))
    ensures Tick(session, t).timeLeft <= t.timeLeft
    ensures t.progress <= Tick(session, t).progress
  {
    ProgressAntitone(session, t.timeLeft - 1, t.timeLeft);
  }

  /**
    Running out of time does not pause the player: the last tick leaves it playing at
    0 seconds with full progress, and no further tick changes anything.
  */
  lemma LastTickKeepsPlaying(session: Duration, t: Timer)
    requires Valid(session, t) && Ticks(t) && t.timeLeft == 1
    ensures var r := Tick(session, t);
            r.isPlaying && r.timeLeft == 0 && r.progress == 100.0 && !Ticks(r)
            && Tick(session, r) == r
  {
    ProgressBounds(session, 0);
  }

  /** Toggling twice restores the timer. */
  lemma TogglePlayInvolution(t: Timer)
    ensures TogglePlay(TogglePlay(t)) == t
  {
  }

  /** `n` consecutive interval firings. */
  function Run(session: Duration, t: Timer, n: nat): Timer
    decreases n
  {
    if n == 0 then t else Run(session, Tick(session, t), n - 1)
  }

  /**
    A playing timer left to run for `n` seconds has `max(0, timeLeft - n)` seconds left,
    is still playing, and is still valid.
  */
  lemma {:induction false} RunCountsDown(session: Duration, t: Timer, n: nat)
    requires Valid(session, t) && t.isPlaying
    ensures var r := Run(session, t, n);
            && Valid(session, r) && r.isPlaying && r.volume == t.volume
            && r.timeLeft == (if n <= t.timeLeft then t.timeLeft - n else 0)
    decreases n
  {
    if n > 0 {
      TickPreservesValid(session, t);
      RunCountsDown(session, Tick(session, t), n - 1);
    }
  }

  /** Playing a whole session from the start ends at 0 seconds and 100% progress. */
  lemma FullSessionCompletes(session: Duration)
    ensures var r := Run(session, TogglePlay(Initial(session)), session);
            r.timeLeft == 0 && r.progress == 100.0 && r.isPlaying
  {
    RunCountsDown(session, TogglePlay(Initial(session)), session);
    ProgressBounds(session, 0);
  }

  /** The user-visible events the player reacts to. */
  datatype Event = Second | PressPlay | MoveVolume(v: int)

  predicate WellFormed(e: Event) {
    e.MoveVolume? ==> 0 <= e.v <= 100
  }

  function Step(session: Duration, t: Timer, e: Event): Timer
    requires WellFormed(e)
  {
    match e
    case Second => Tick(session, t)
    case PressPlay => TogglePlay(t)
    case MoveVolume(v) => SetVolume(t, v)
  }

  /** The state after a history of events, starting from the initial state. */
  function Replay(session: Duration, es: seq<Event>): Timer
    requires forall i :: 0 <= i < |es| ==> WellFormed(es[i])
  {
    if es == [] then Initial(session)
    else Step(session, Replay(session, es[..|es| - 1]), es[|es| - 1])
  }

  /**
    Whatever the user does, the timer stays valid, and no event raises the remaining time or
    lowers the progress.
  */
  lemma {:induction false} ReplayValid(session: Duration, es: seq<Event>)
    requires forall i :: 0 <= i < |es| ==> WellFormed(es[i])
    ensures Valid(session, Replay(session, es))
    ensures es != [] ==>
              Replay(session, es).timeLeft <= Replay(session, es[..|es| - 1]).timeLeft
              && Replay(session, es[..|es| - 1]).progress <= Replay(session, es).progress
  {
    if es != [] {
      var prefix := es[..|es| - 1];
      ReplayValid(session, prefix);
      TickPreservesValid(session, Replay(session, prefix));
    }
  }

  /** JavaScript's `%`: the remainder takes the sign of the dividend. */
  function JsRem(a: int, b: int): (r: int)
    requires b > 0
    ensures a >= 0 ==> 0 <= r < b && r == a % b
    ensures a < 0 ==> -b < r <= 0
  {
    if a >= 0 then a % b else -((-a) % b)
  }

  /** Truncating remainder is odd in the dividend: negating `a` negates the remainder. */
  lemma JsRemOdd(a: int, b: int)
    requires b > 0
    ensures JsRem(-a, b) == -JsRem(a, b)
  {
  }

  /** `formatTime`: whole minutes, a colon, and the seconds zero-padded to two places. */
  function FormatTime(seconds: int): string {
    IntToString(seconds / 60) + ":" + PadStart(IntToString(JsRem(seconds, 60)), 2, '0')
  }

  /** Index of the first colon in `t`, if any. */
  function FirstColon(t: string): (r: Option<nat>)
    ensures r.Some? ==> r.value < |t| && t[r.value] == ':'
                        && forall k :: 0 <= k < r.value ==> t[k] != ':'
    ensures r.None? ==> forall k :: 0 <= k < |t| ==> t[k] != ':'
  {
    if t == [] then None
    else if t[0] == ':' then Some(0)
    else match FirstColon(t[1..])
      case None => None
      case Some(i) => Some(i + 1)
  }

  /**
    Reads an `m:ss` label back into seconds: minutes are one or more digits, seconds are
    exactly two digits below 60.
  */
  function ParseClock(t: string): Option<nat>
  {
    match FirstColon(t)
    case None => None
    case Some(i) =>
      var mins := t[..i];
      var secs := t[i + 1..];
      if mins != [] && AllDigits(mins) && |secs| == 2 && AllDigits(secs) && DecimalValue(secs) < 60
      then Some(60 * DecimalValue(mins) + DecimalValue(secs))
      else None
  }

  lemma {:induction false} FirstColonAfterDigits(p: string, q: string)
    requires AllDigits(p)
    ensures FirstColon(p + ":" + q) == Some(|p|)
  {
    if p != [] {
      assert (p + ":" + q)[1..] == p[1..] + ":" + q;
      FirstColonAfterDigits(p[1..], q);
    }
  }

  /** The seconds field of a label, for a non-negative number of seconds. */
  function SecondsField(seconds: nat): string {
    PadStart(NatToDecimal(seconds % 60), 2, '0')
  }

  /**
    For non-negative input the label is the decimal minutes, a colon, and a seconds field of
    exactly two digits reading 00..59.
  */
  lemma FormatTimeShape(seconds: nat)
    ensures FormatTime(seconds) == NatToDecimal(seconds / 60) + ":" + SecondsField(seconds)
    ensures var f := SecondsField(seconds);
            |f| == 2 && AllDigits(f) && DecimalValue(f) == seconds % 60 && DecimalValue(f) <= 59
  {
    var d := NatToDecimal(seconds % 60);
    DigitsUtf16Length(d);
    DecimalRoundTrip(seconds % 60);
    var f := SecondsField(seconds);
    if |d| == 1 {
      assert f == ['0'] + d;
      assert f[..1] == ['0'];
      assert f[1..] == d;
      assert DecimalValue(f[..1]) == 0;
      assert d == [d[0]];
      assert DecimalValue(d) == DigitValue(d[0]);
    } else {
      assert f == d;
    }
  }

  /** Reading a label back gives the seconds it was made from. */
  lemma FormatTimeRoundTrip(seconds: nat)
    ensures ParseClock(FormatTime(seconds)) == Some(seconds)
  {
    FormatTimeShape(seconds);
    var m := NatToDecimal(seconds / 60);
    var f := SecondsField(seconds);
    var t := FormatTime(seconds);
    FirstColonAfterDigits(m, f);
    assert t[..|m|] == m;
    assert t[|m| + 1..] == f;
    DecimalRoundTrip(seconds / 60);
  }

  /** Different non-negative second counts are shown differently. */
  lemma FormatTimeInjective(a: nat, b: nat)
    requires FormatTime(a) == FormatTime(b)
    ensures a == b
  {
    FormatTimeRoundTrip(a);
    FormatTimeRoundTrip(b);
  }
}
