/**
  The landing page's "how do you feel today" slider: five emotions, the one the slider
  value picks colours the background, and clicking an emotion moves the slider onto it.
*/
module LandingPage {
  import opened EmotionScale

  /** What the page shows for an anchor: its caption (emoji and word) and a gradient class. */
  datatype Look = Look(caption: string, color: string)

  /** The `emotions` table, in page order. */
  const EMOTIONS: seq<Anchor<Look>> := [
    Anchor(0, Look("😔 低落", "from-blue-500/50")),
    Anchor(25, Look("😊 还好", "from-green-500/50")),
    Anchor(50, Look("😌 平静", "from-purple-500/50")),
    Anchor(75, Look("🤗 开心", "from-yellow-500/50")),
    Anchor(100, Look("✨ 兴奋", "from-pink-500/50"))
  ]

  /** The slider's starting value. */
  const INITIAL_EMOTION: int := 50

  /** Slider range, as configured on the `Slider`. */
  predicate OnSlider(v: int) {
    0 <= v <= 100
  }

  /** `currentEmotion`: the emotion the slider value `emotion` picks. */
  function CurrentEmotion(emotion: int): (e: Anchor<Look>)
    ensures e in EMOTIONS
    ensures OnSlider(emotion) ==> Near(emotion, e.value)
  {
    assert OnSlider(emotion) ==> Near(emotion, Current(EMOTIONS, emotion).value) by {
      if OnSlider(emotion) { CurrentHighlighted(EMOTIONS, emotion); }
    }
    Current(EMOTIONS, emotion)
  }

  /** Whether the `k`-th emotion is drawn at full opacity and enlarged. */
  predicate Highlighted(emotion: int, k: nat)
    requires k < |EMOTIONS|
  {
    Near(emotion, EMOTIONS[k].value)
  }

  /** Clicking the `k`-th emotion sets the slider to its value, which picks it back. */
  function ClickEmotion(k: nat): (emotion: int)
    requires k < |EMOTIONS|
    ensures OnSlider(emotion)
    ensures CurrentEmotion(emotion) == EMOTIONS[k] && Highlighted(emotion, k)
  {
    AnchorSelfClassifies(EMOTIONS, k);
    EMOTIONS[k].value
  }

  /**
    On the slider some emotion always matches, so the fallback never fires there, and the
    emotion picked is one of the highlighted ones.
  */
  lemma SelectedIsHighlighted(emotion: int)
    requires OnSlider(emotion)
    ensures FirstNear(EMOTIONS, emotion).Some?
    ensures Highlighted(emotion, CurrentIndex(EMOTIONS, emotion))
  {
    MatchIff(EMOTIONS, emotion);
  }

  /** Between 11 and 14 both 低落 and 还好 light up, and 低落, listed first, is picked. */
  lemma OverlapFirstWins(emotion: int)
    requires 11 <= emotion <= 14
    ensures Highlighted(emotion, 0) && Highlighted(emotion, 1)
    ensures CurrentEmotion(emotion) == EMOTIONS[0]
  {
    OverlapPicksEarlier(EMOTIONS, emotion, 0);
  }

  /** The page opens on 平静. */
  lemma InitialIsCalm()
    ensures CurrentEmotion(INITIAL_EMOTION).look.caption == "😌 平静"
  {
    AnchorSelfClassifies(EMOTIONS, 2);
  }
}
