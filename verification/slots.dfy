// The daemon's table of LG slots and the scans its handlers make over it.

module Slots {
  import opened Text

  datatype Status = Idle | Reserved | Used

  datatype Slot = Slot(status: Status, appname: string, activity: string)

  datatype Query = AnyIdle | RunningActivity(activity: string) | RunningApp(appname: string)

  predicate Matches(slot: Slot, q: Query) {
    match q
    case AnyIdle => slot.status == Idle
    case RunningActivity(activity) => slot.status == Used && Contains(slot.activity, activity)
    case RunningApp(appname) => slot.status == Used && Contains(slot.appname, appname)
  }

  // `r` is the lowest slot that answers the query, or -1 and none does.
  ghost predicate IsFirst(slots: seq<Slot>, q: Query, r: int) {
    && -1 <= r < |slots|
    && (r >= 0 ==> Matches(slots[r], q) && forall k :: 0 <= k < r ==> !Matches(slots[k], q))
    && (r == -1 ==> forall k :: 0 <= k < |slots| ==> !Matches(slots[k], q))
  }

  function First(slots: seq<Slot>, q: Query): (r: int)
    ensures IsFirst(slots, q, r)
  {
    if |slots| == 0 then -1
    else
      var prefix := First(slots[..|slots| - 1], q);
      if prefix >= 0 then prefix
      else if Matches(slots[|slots| - 1], q) then |slots| - 1
      else -1
  }

  lemma FirstIsLowest(slots: seq<Slot>, q: Query, r: int)
    requires IsFirst(slots, q, r)
    ensures r == First(slots, q)
  {
    var f := First(slots, q);
  }

  // How many slots are not idle.
  function Busy(slots: seq<Slot>): (n: nat)
    ensures n <= |slots|
  {
    if |slots| == 0 then 0
    else Busy(slots[..|slots| - 1]) + Weight(slots[|slots| - 1].status)
  }

  function Weight(status: Status): nat { if status == Idle then 0 else 1 }

  lemma {:induction false} BusyUpdate(slots: seq<Slot>, k: nat, slot: Slot)
    requires k < |slots|
    ensures Busy(slots[k := slot]) == Busy(slots) - Weight(slots[k].status) + Weight(slot.status)
  {
    var n := |slots| - 1;
    var now := slots[k := slot];
    if k == n {
      assert now[..n] == slots[..n];
    } else {
      assert now[..n] == slots[..n][k := slot];
      BusyUpdate(slots[..n], k, slot);
    }
  }

  lemma {:induction false} FullIsBusy(slots: seq<Slot>)
    ensures Busy(slots) == |slots| <==> forall k :: 0 <= k < |slots| ==> slots[k].status != Idle
  {
    if |slots| > 0 {
      var n := |slots| - 1;
      FullIsBusy(slots[..n]);
      assert forall k :: 0 <= k < n ==> slots[..n][k] == slots[k];
    }
  }

  lemma {:induction false} AllIdleBusy(slots: seq<Slot>)
    requires forall k :: 0 <= k < |slots| ==> slots[k].status == Idle
    ensures Busy(slots) == 0
  {
    if |slots| > 0 {
      AllIdleBusy(slots[..|slots| - 1]);
    }
  }
}
