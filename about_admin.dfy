/**
 * The "About" editor of the admin dashboard: the society's description and
 * its list of activities, edited in memory, with a saved flag that every
 * edit clears.
 */
module AboutAdmin {

  /** The description the screen starts with. */
  const InitialMainText: string :=
    "Welcome to the IRIS Society at IIT Madras, a dynamic community dedicated to celebrating and\n" +
    "  exploring the art of photography. Our society aims to inspire creativity, enhance skills, and foster a\n" +
    "  shared passion for capturing moments through the lens.\n" +
    "  \n" +
    "  Founded under the IIT Madras BS Degree program, IRIS is open to all students under this domain, regardless\n" +
    "  of their photography experience. We believe that photography is a powerful medium for storytelling and\n" +
    "  self-expression, and we strive to create an inclusive environment where every member can grow and thrive."

  const InitialActivities: seq<string> := ["Workshops and Tutorials", "Photowalks", "Collaborations", "Monthly Competitions"]

  /**
   * `activities.filter((_, i) => i !== index)`, walked from position `from`:
   * every entry whose position is not `index`, in order.
   */
  function WithoutPosition(activities: seq<string>, index: int, from: int): (r: seq<string>)
    ensures |r| <= |activities|
  {
    if activities == [] then []
    else (if from != index then [activities[0]] else []) + WithoutPosition(activities[1..], index, from + 1)
  }

  /** A walk that starts past `index` keeps every entry. */
  lemma {:induction false} WithoutPositionPast(activities: seq<string>, index: int, from: int)
    requires from > index
    ensures WithoutPosition(activities, index, from) == activities
  {
    if activities != [] {
      WithoutPositionPast(activities[1..], index, from + 1);
      assert activities == [activities[0]] + activities[1..];
    }
  }

  /** Entries before `index` are kept, the one at `index` dropped, and the walk goes on past it. */
  lemma {:induction false} WithoutPositionSlices(activities: seq<string>, index: int, from: int)
    requires from <= index
    ensures index - from < |activities| ==>
      WithoutPosition(activities, index, from) == activities[..index - from] + activities[index - from + 1..]
    ensures index - from >= |activities| ==> WithoutPosition(activities, index, from) == activities
    decreases |activities|
  {
    if activities == [] {
    } else if from == index {
      WithoutPositionPast(activities[1..], index, from + 1);
    } else {
      WithoutPositionSlices(activities[1..], index, from + 1);
      assert activities == [activities[0]] + activities[1..];
      if index - from < |activities| {
        assert activities[..index - from] == [activities[0]] + activities[1..][..index - from - 1];
        assert activities[index - from + 1..] == activities[1..][index - from..];
      }
    }
  }

  /**
   * Removing the activity at `index` drops exactly that entry and keeps the
   * others in order; an index outside the list leaves it unchanged.
   */
  lemma RemoveActivityMeaning(activities: seq<string>, index: int)
    ensures 0 <= index < |activities| ==>
      WithoutPosition(activities, index, 0) == activities[..index] + activities[index + 1..]
    ensures !(0 <= index < |activities|) ==> WithoutPosition(activities, index, 0) == activities
  {
    if index < 0 {
      WithoutPositionPast(activities, index, 0);
    } else {
      WithoutPositionSlices(activities, index, 0);
    }
  }

  /** What remains, together with the removed entry, is exactly the list as it was. */
  lemma RemoveActivityKeepsOthers(activities: seq<string>, index: int)
    requires 0 <= index < |activities|
    ensures multiset(WithoutPosition(activities, index, 0)) + multiset{activities[index]} == multiset(activities)
  {
    RemoveActivityMeaning(activities, index);
    SlicesAroundMultiset(activities, index);
  }

  lemma SlicesAroundMultiset(s: seq<string>, k: int)
    requires 0 <= k < |s|
    ensures multiset(s[..k] + s[k + 1..]) + multiset{s[k]} == multiset(s)
  {
    assert s == s[..k] + ([s[k]] + s[k + 1..]);
  }

  class AboutScreen {
    var mainText: string
    var activities: seq<string>
    var isSaved: bool

    constructor()
      ensures mainText == InitialMainText && activities == InitialActivities && !isSaved
    {
      mainText := InitialMainText;
      activities := InitialActivities;
      isSaved := false;
    }

    /** `handleMainTextChange`: replaces the description only, and clears the saved flag. */
    method HandleMainTextChange(value: string)
      modifies this
      ensures mainText == value && activities == old(activities) && !isSaved
    {
      mainText := value;
      isSaved := false;
    }

    /** `handleActivityChange`: sets one listed entry; the others and the length are unchanged. */
    method HandleActivityChange(index: int, value: string)
      requires 0 <= index < |activities|
      modifies this
      ensures |activities| == |old(activities)| && activities[index] == value
      ensures forall j :: 0 <= j < |activities| && j != index ==> activities[j] == old(activities)[j]
      ensures mainText == old(mainText) && !isSaved
    {
      activities := activities[index := value];
      isSaved := false;
    }

    /** `handleAddActivity`: appends one empty entry. */
    method HandleAddActivity()
      modifies this
      ensures activities == old(activities) + [""]
      ensures mainText == old(mainText) && !isSaved
    {
      activities := activities + [""];
      isSaved := false;
    }

    /** `handleRemoveActivity`: drops the entry at `index`, if there is one. */
    method HandleRemoveActivity(index: int)
      modifies this
      ensures activities == WithoutPosition(old(activities), index, 0)
      ensures 0 <= index < |old(activities)| ==> activities == old(activities)[..index] + old(activities)[index + 1..]
      ensures !(0 <= index < |old(activities)|) ==> activities == old(activities)
      ensures mainText == old(mainText) && !isSaved
    {
      RemoveActivityMeaning(activities, index);
      activities := WithoutPosition(activities, index, 0);
      isSaved := false;
    }

    /** `handleSave`: marks the content saved; nothing else changes. */
    method HandleSave()
      modifies this
      ensures isSaved && mainText == old(mainText) && activities == old(activities)
    {
      isSaved := true;
    }
  }
}
