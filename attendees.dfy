/** The attendee list generator: repeated picks from a fixed pool of names,
    keeping each name once, in the order first picked. */
module Attendees {
  import opened Wrappers
  import opened EventQueries

  /** The pool of names picks are made from. */
  const OptionalAttendees: seq<string> := [
    "Yoda", "HAL 9000", "Gizmo", "Optimus Prime", "Marvin the Paranoid Android", "ET", "Bender",
    "Narcissus", "Frodo", "Esscher", "Lothar Collatz", "Foo", "Bar", "Tweety"]

  /** The live constants: the loop runs over 0...ListSize and always picks ItemIndex. */
  const ListSize: nat := 3
  const ItemIndex: nat := 0

  predicate NoDuplicates(s: seq<string>)
  {
    forall i, j :: 0 <= i < j < |s| ==> s[i] != s[j]
  }

  /** The names at the picked positions of the pool, in pick order. */
  function Picked(itemIndices: seq<nat>): (r: seq<string>)
    requires forall k :: 0 <= k < |itemIndices| ==> itemIndices[k] < |OptionalAttendees|
    ensures |r| == |itemIndices|
    ensures forall k :: 0 <= k < |r| ==> r[k] == OptionalAttendees[itemIndices[k]]
  {
    seq(|itemIndices|, k requires 0 <= k < |itemIndices| => OptionalAttendees[itemIndices[k]])
  }

  /** Each picked name once, in the order of its first pick. */
  function FirstPicks(picks: seq<string>): (r: seq<string>)
    ensures |r| <= |picks|
    ensures forall x :: x in r <==> x in picks
    ensures NoDuplicates(r)
    decreases |picks|
  {
    if picks == [] then []
    else
      var rest := FirstPicks(picks[..|picks| - 1]);
      var item := picks[|picks| - 1];
      assert picks == picks[..|picks| - 1] + [item];
      if item in rest then rest else rest + [item]
  }

  /** The kept names appear in pick order. */
  lemma {:induction false} FirstPicksInPickOrder(picks: seq<string>)
    ensures IsSubsequence(FirstPicks(picks), picks)
    decreases |picks|
  {
    if picks != [] {
      var init, item := picks[..|picks| - 1], picks[|picks| - 1];
      var rest := FirstPicks(init);
      FirstPicksInPickOrder(init);
      assert picks == init + [item];
      assert FirstPicks(picks) == if item in rest then rest else rest + [item];
      if item in rest {
        SubsequenceExtend(rest, init, item);
      } else {
        assert (rest + [item])[..|rest|] == rest;
        assert picks[..|picks| - 1] == init;
      }
    }
  }

  /** The kept names are ordered by their first picks: of two kept names, the
      one listed earlier was first picked earlier. */
  lemma {:induction false} FirstPicksByFirstPick(picks: seq<string>)
    ensures forall i, j :: 0 <= i < j < |FirstPicks(picks)| ==>
              FirstIndex(picks, FirstPicks(picks)[i]) < FirstIndex(picks, FirstPicks(picks)[j])
    decreases |picks|
  {
    if picks != [] {
      var init, item := picks[..|picks| - 1], picks[|picks| - 1];
      var rest := FirstPicks(init);
      FirstPicksByFirstPick(init);
      assert picks == init + [item];
      var r := FirstPicks(picks);
      assert r == if item in rest then rest else rest + [item];
      forall i, j | 0 <= i < j < |r|
        ensures FirstIndex(picks, r[i]) < FirstIndex(picks, r[j])
      {
        FirstIndexSnoc(init, item, r[i]);
        FirstIndexSnoc(init, item, r[j]);
        assert r[i] == rest[i] && rest[i] in init;
        if j < |rest| {
          assert r[j] == rest[j] && rest[j] in init;
        } else {
          assert r[j] == item && item !in init;
        }
      }
    }
  }

  /** Every picked position lies inside the pool. */
  predicate InPool(itemIndices: seq<nat>)
  {
    forall k :: 0 <= k < |itemIndices| ==> itemIndices[k] < |OptionalAttendees|
  }

  /** The generator loop with the pick positions as a parameter: `itemIndices[k]`
      is the position picked in round k of the listSize + 1 rounds. A position
      outside the pool traps at the array access. */
  method GenerateAttendees(listSize: nat, itemIndices: seq<nat>) returns (r: Completion<seq<string>>)
    requires |itemIndices| == listSize + 1
    ensures r.Crashed? <==> !InPool(itemIndices)
    ensures r.Finished? ==> InPool(itemIndices) && r.value == FirstPicks(Picked(itemIndices))
    ensures r.Finished? ==> NoDuplicates(r.value) && |r.value| <= listSize + 1
    ensures r.Finished? ==> forall x :: x in r.value ==> x in OptionalAttendees
  {
    var attendeesList := [];
    for k := 0 to listSize + 1
      invariant InPool(itemIndices[..k])
      invariant attendeesList == FirstPicks(Picked(itemIndices[..k]))
    {
      if itemIndices[k] >= |OptionalAttendees| {
        assert !InPool(itemIndices) by {
          assert itemIndices[k] >= |OptionalAttendees|;
        }
        return Crashed;
      }
      var item := OptionalAttendees[itemIndices[k]];
      PickedStep(itemIndices, k);
      if item !in attendeesList {
        attendeesList := attendeesList + [item];
      }
    }
    assert itemIndices[..listSize + 1] == itemIndices;
    r := Finished(attendeesList);
  }

  /** One more round picks one more name; the picks so far are unchanged. */
  lemma PickedStep(itemIndices: seq<nat>, k: nat)
    requires k < |itemIndices| && InPool(itemIndices[..k]) && itemIndices[k] < |OptionalAttendees|
    ensures InPool(itemIndices[..k + 1])
    ensures var p := Picked(itemIndices[..k + 1]);
            p[..k] == Picked(itemIndices[..k]) && p[k] == OptionalAttendees[itemIndices[k]]
  {
    assert itemIndices[..k + 1][..k] == itemIndices[..k];
  }

  /** getSemiRandomGeneratedAttendeesList with the live constants: always ["Yoda"]. */
  method GetSemiRandomGeneratedAttendeesList() returns (attendeesList: seq<string>)
    ensures attendeesList == ["Yoda"]
  {
    var itemIndices := seq(ListSize + 1, _ => ItemIndex);
    var r := GenerateAttendees(ListSize, itemIndices);
    attendeesList := r.value;
    var picks := Picked(itemIndices);
    assert picks == ["Yoda", "Yoda", "Yoda", "Yoda"];
    assert picks[..1] == ["Yoda"] && picks[..2][..1] == ["Yoda"];
    assert picks[..3][..2] == picks[..2] && picks[..2][..1] == picks[..1];
    assert FirstPicks(picks[..1]) == ["Yoda"];
    assert FirstPicks(picks[..2]) == ["Yoda"];
    assert FirstPicks(picks[..3]) == ["Yoda"];
  }
}
