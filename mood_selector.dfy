// The MoodSelector component: the user picks one of five moods, and the
// suggest button hands one food from that mood's fixed list to the parent.

module MoodSelector {
  import opened Lists
  import opened JsRandom

  datatype Option<T> = None | Some(value: T)

  datatype Mood = Happy | Sad | Tired | Hungry | Stressed

  /** The radio buttons, in the order they are shown. */
  const Moods: seq<Mood> := [Happy, Sad, Tired, Hungry, Stressed]

  /** Each mood has exactly one radio button. */
  lemma MoodsListsEachMoodOnce()
    ensures forall m: Mood :: m in Moods
    ensures Distinct(Moods)
  {
    forall m: Mood ensures m in Moods {
      match m
      case Happy => assert Moods[0] == m;
      case Sad => assert Moods[1] == m;
      case Tired => assert Moods[2] == m;
      case Hungry => assert Moods[3] == m;
      case Stressed => assert Moods[4] == m;
    }
  }

  /** The foods suggested for each mood: five different ones apiece. */
  function MoodFoods(m: Mood): (foods: seq<string>)
    ensures |foods| == 5
    ensures Distinct(foods)
  {
    match m
    case Happy => ["火锅", "烤肉", "自助餐", "海鲜", "披萨"]
    case Sad => ["甜点", "巧克力", "冰淇淋", "奶茶", "蛋糕"]
    case Tired => ["粥", "面条", "汤", "粉丝", "暖锅"]
    case Hungry => ["大盘鸡", "烧烤", "麻辣香锅", "炒饭", "盖浇饭"]
    case Stressed => ["寿司", "沙拉", "轻食", "水果", "坚果"]
  }

  /** The state of one MoodSelector component. */
  class MoodSelectorState {
    var selectedMood: Option<Mood>

    /** The suggest button is clickable. */
    predicate SuggestEnabled()
      reads this
    {
      selectedMood != None
    }

    /** Mounting: no mood is chosen yet. */
    constructor ()
      ensures selectedMood == None && !SuggestEnabled()
    {
      selectedMood := None;
    }

    /** Clicking a mood's radio button; once chosen, a mood is never unset. */
    method SelectMood(m: Mood)
      modifies this
      ensures selectedMood == Some(m) && SuggestEnabled()
    {
      selectedMood := Some(m);
    }

    /**
     * The suggest button; `draw` is what Math.random() returned. Without a
     * mood nothing is handed on; with one, the food at the drawn index of
     * that mood's list is.
     */
    method HandleSuggestFood(draw: real) returns (emitted: Option<string>)
      requires 0.0 <= draw < 1.0
      ensures emitted != None <==> SuggestEnabled()
      ensures selectedMood == None ==> emitted == None
      ensures selectedMood != None ==>
                emitted == Some(MoodFoods(selectedMood.value)[RandomIndex(draw, 5)])
      ensures selectedMood != None ==> emitted.value in MoodFoods(selectedMood.value)
    {
      emitted := None;
      if selectedMood != None {
        var foods := MoodFoods(selectedMood.value);
        var randomIndex := RandomIndex(draw, |foods|);
        emitted := Some(foods[randomIndex]);
      }
    }
  }
}
