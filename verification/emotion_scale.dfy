/**
  The mood slider shared by the landing page and the mood form: a 0..100 score is bucketed
  into the first table entry whose anchor value lies strictly within 15 of it, falling back
  to the third entry when none does, and every entry within 15 of the score is highlighted.

  The rule is written once over tables of any payload; both pages use the same five anchors
  0, 25, 50, 75 and 100 and differ only in the labels attached to them.
*/
module EmotionScale {
  import opened Wrappers

  /** A table row: the anchor value on the slider and whatever the page shows for it. */
  datatype Anchor<L> = Anchor(value: int, look: L)

  /** Half-width of the window around an anchor. */
  const WINDOW: int := 15

  /** `Math.abs(score - value) < 15`: the anchor is highlighted for this score. */
  predicate Near(score: int, value: int) {
    -WINDOW < score - value < WINDOW
  }

  /** `table.findIndex(...)`: the first entry near `score`, if any. */
  function FirstNear<L>(table: seq<Anchor<L>>, score: int): (r: Option<nat>)
    ensures r.Some? ==> r.value < |table| && Near(score, table[r.value].value)
                        && forall j :: 0 <= j < r.value ==> !Near(score, table[j].value)
    ensures r.None? ==> forall j :: 0 <= j < |table| ==> !Near(score, table[j].value)
  {
    if table == [] then None
    else if Near(score, table[0].value) then Some(0)
    else match FirstNear(table[1..], score)
      case None => None
      case Some(i) => Some(i + 1)
  }

  /** Position of the entry `currentEmotion` picks: the first near one, else position 2. */
  function CurrentIndex<L>(table: seq<Anchor<L>>, score: int): (i: nat)
    requires |table| > 2
    ensures i < |table|
  {
    match FirstNear(table, score)
    case Some(i) => i
    case None => 2
  }

  /** `emotions.find(e => Math.abs(score - e.value) < 15) || emotions[2]`. */
  function Current<L>(table: seq<Anchor<L>>, score: int): (e: Anchor<L>)
    requires |table| > 2
    ensures e in table
  {
    table[CurrentIndex(table, score)]
  }

  /**
    The pick is near the score whenever any entry is, and it is the earliest such entry;
    with no entry near, it is the fallback at position 2.
  */
  lemma CurrentIsFirstNear<L>(table: seq<Anchor<L>>, score: int, k: nat)
    requires |table| > 2 && k < |table|
    ensures Near(score, table[k].value) ==>
              CurrentIndex(table, score) <= k && Near(score, Current(table, score).value)
    ensures (forall j :: 0 <= j < |table| ==> !Near(score, table[j].value)) ==>
              CurrentIndex(table, score) == 2
  {
  }

  /** The anchors both pages use, in table order. */
  predicate StandardScale<L>(table: seq<Anchor<L>>) {
    && |table| == 5
    && table[0].value == 0 && table[1].value == 25 && table[2].value == 50
    && table[3].value == 75 && table[4].value == 100
  }

  /** An anchor near every score from -14 to 114; which one depends on the score. */
  function Nearest(score: int): (k: nat)
    requires -14 <= score <= 114
    ensures k < 5 && Near(score, 25 * k)
  {
    if score <= 12 then 0 else if score <= 37 then 1 else if score <= 62 then 2
    else if score <= 87 then 3 else 4
  }

  /**
    Some entry matches exactly for scores -14..114, a range that contains the whole slider
    0..100; so the fallback is only reached from outside the slider's range.
  */
  lemma MatchIff<L>(table: seq<Anchor<L>>, score: int)
    requires StandardScale(table)
    ensures FirstNear(table, score).Some? <==> -14 <= score <= 114
  {
    if -14 <= score <= 114 {
      var k := Nearest(score);
      assert Near(score, table[k].value);
    } else {
      assert forall j :: 0 <= j < 5 ==> 0 <= table[j].value <= 100;
    }
  }

  /** Within the slider's range the picked entry is always one of the highlighted ones. */
  lemma CurrentHighlighted<L>(table: seq<Anchor<L>>, score: int)
    requires StandardScale(table) && 0 <= score <= 100
    ensures Near(score, Current(table, score).value)
    ensures FirstNear(table, score) == Some(CurrentIndex(table, score))
  {
    MatchIff(table, score);
  }

  /** Setting the slider to an entry's own value picks that entry back. */
  lemma AnchorSelfClassifies<L>(table: seq<Anchor<L>>, k: nat)
    requires StandardScale(table) && k < 5
    ensures CurrentIndex(table, table[k].value) == k
    ensures Current(table, table[k].value) == table[k]
  {
    var v := table[k].value;
    assert Near(v, table[k].value);
    assert forall j :: 0 <= j < 5 && j != k ==> !Near(v, table[j].value);
  }

  /**
    Two neighbouring entries are highlighted at once exactly on the four overlaps
    11..14, 36..39, 61..64 and 86..89, and there the earlier entry is the one picked.
  */
  lemma OverlapPicksEarlier<L>(table: seq<Anchor<L>>, score: int, k: nat)
    requires StandardScale(table) && k < 4
    ensures Near(score, table[k].value) && Near(score, table[k + 1].value)
            <==> 25 * k + 11 <= score <= 25 * k + 14
    ensures 25 * k + 11 <= score <= 25 * k + 14 ==> CurrentIndex(table, score) == k
  {
    if 25 * k + 11 <= score <= 25 * k + 14 {
      assert Near(score, table[k].value);
      assert forall j :: 0 <= j < k ==> !Near(score, table[j].value);
    }
  }
}
