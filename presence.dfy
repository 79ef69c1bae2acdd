/**
 * What a presence update means for play tracking: the first "playing"
 * activity before and after the update, and the status change, select one
 * of four transitions, tested in the order of `on_presence_update`.
 */
module Presence {
  import opened Wrappers

  datatype ActivityKind = Playing | Streaming | Listening | Watching | Custom | Competing

  datatype Activity = Activity(kind: ActivityKind, name: string)

  datatype Status = Online | Offline | Idle | DoNotDisturb | Invisible

  /** Position `i` holds the first "playing" activity. */
  predicate FirstPlayingAt(activities: seq<Activity>, i: int)
  {
    0 <= i < |activities| && activities[i].kind == Playing &&
    forall j :: 0 <= j < i ==> activities[j].kind != Playing
  }

  /** `next((a for a in activities if a.type == playing), None)`. */
  function FirstPlaying(activities: seq<Activity>): (r: Option<Activity>)
    ensures r.None? <==> forall a :: a in activities ==> a.kind != Playing
    ensures r.Some? ==> (exists i :: FirstPlayingAt(activities, i) && activities[i] == r.value)
  {
    if activities == [] then None
    else if activities[0].kind == Playing then
      assert FirstPlayingAt(activities, 0);
      Some(activities[0])
    else
      var r := FirstPlaying(activities[1..]);
      assert activities == [activities[0]] + activities[1..];
      assert r.Some? ==> (exists i :: FirstPlayingAt(activities, i) && activities[i] == r.value) by {
        if r.Some? {
          var i :| FirstPlayingAt(activities[1..], i) && activities[1..][i] == r.value;
          assert FirstPlayingAt(activities, i + 1);
        }
      }
      r
  }

  datatype Transition =
    | StartPlaying(game: string)
    | StopPlaying
    | SwitchGame(from: string, to: string)
    | NoTransition

  /** The status went from something else to offline. */
  predicate WentOffline(before: Status, after: Status)
  {
    before != after && after == Offline
  }

  /**
   * The branch `on_presence_update` takes.  Start wins over everything; a
   * stop is a game that ended or a member who went offline; a switch needs a
   * game on both sides under different names; anything else changes nothing.
   */
  function Classify(before: seq<Activity>, after: seq<Activity>, beforeStatus: Status, afterStatus: Status): (r: Transition)
    ensures r.StartPlaying? <==> FirstPlaying(before).None? && FirstPlaying(after).Some?
    ensures r.StartPlaying? ==> r.game == FirstPlaying(after).value.name
    ensures r.StopPlaying? <==>
      !r.StartPlaying? &&
      ((FirstPlaying(before).Some? && FirstPlaying(after).None?) || WentOffline(beforeStatus, afterStatus))
    ensures r.SwitchGame? <==>
      FirstPlaying(before).Some? && FirstPlaying(after).Some? && !WentOffline(beforeStatus, afterStatus) &&
      FirstPlaying(before).value.name != FirstPlaying(after).value.name
    ensures r.SwitchGame? ==>
      r.from == FirstPlaying(before).value.name && r.to == FirstPlaying(after).value.name
  {
    var beforeGame, afterGame := FirstPlaying(before), FirstPlaying(after);
    if beforeGame.None? && afterGame.Some? then StartPlaying(afterGame.value.name)
    else if (beforeGame.Some? && afterGame.None?) || WentOffline(beforeStatus, afterStatus) then StopPlaying
    else if beforeGame.Some? && afterGame.Some? && beforeGame.value.name != afterGame.value.name then
      SwitchGame(beforeGame.value.name, afterGame.value.name)
    else NoTransition
  }
}
