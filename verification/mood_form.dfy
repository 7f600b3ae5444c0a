/**
  The mood form: a 0..100 mood score with the same five-anchor bucketing as the landing
  page, showing the picked emoji and its description above the slider.
*/
module MoodForm {
  import opened EmotionScale

  /** What the form shows for an anchor: an emoji and a one-word description. */
  datatype Look = Look(emoji: string, description: string)

  /** The `emotions` table, in form order. */
  const EMOTIONS: seq<Anchor<Look>> := [
    Anchor(0, Look("😔", "低落")),
    Anchor(25, Look("😕", "还好")),
    Anchor(50, Look("😊", "平静")),
    Anchor(75, Look("😃", "开心")),
    Anchor(100, Look("🤗", "兴奋"))
  ]

  /** `moodScore` before the user touches anything. */
  const INITIAL_SCORE: int := 50

  predicate OnSlider(v: int) {
    0 <= v <= 100
  }

  /** `currentEmotion`: the emotion the mood score picks. */
  function CurrentEmotion(moodScore: int): (e: Anchor<Look>)
    ensures e in EMOTIONS
    ensures OnSlider(moodScore) ==> Near(moodScore, e.value)
  {
    assert OnSlider(moodScore) ==> Near(moodScore, Current(EMOTIONS, moodScore).value) by {
      if OnSlider(moodScore) { CurrentHighlighted(EMOTIONS, moodScore); }
    }
    Current(EMOTIONS, moodScore)
  }

  /** Whether the `k`-th emoji is drawn at full opacity rather than at half. */
  predicate FullOpacity(moodScore: int, k: nat)
    requires k < |EMOTIONS|
  {
    Near(moodScore, EMOTIONS[k].value)
  }

  /** Clicking the `k`-th emoji sets the score to its value, which picks it back. */
  function ClickEmotion(k: nat): (moodScore: int)
    requires k < |EMOTIONS|
    ensures OnSlider(moodScore)
    ensures CurrentEmotion(moodScore) == EMOTIONS[k] && FullOpacity(moodScore, k)
  {
    AnchorSelfClassifies(EMOTIONS, k);
    EMOTIONS[k].value
  }

  /**
    A score is matched by some entry exactly when it lies in -14..114, so every slider
    score is matched; the picked emoji is then always at full opacity.
  */
  lemma MatchedOnSlider(moodScore: int)
    ensures FirstNear(EMOTIONS, moodScore).Some? <==> -14 <= moodScore <= 114
    ensures OnSlider(moodScore) ==> FullOpacity(moodScore, CurrentIndex(EMOTIONS, moodScore))
  {
    MatchIff(EMOTIONS, moodScore);
  }

  /** The form opens on 😊 平静. */
  lemma InitialIsCalm()
    ensures CurrentEmotion(INITIAL_SCORE).look == Look("😊", "平静")
  {
    AnchorSelfClassifies(EMOTIONS, 2);
  }
}
