// One daemon session per launcher connection (vatclient.cpp, the build with several slots).

module VatSession {
  import opened Events
  import opened Slots
  import opened Text

  // What handling one event does: the session's own fields, the shared table,
  // the messages written to the launcher and those put on the daemon's global queue.
  datatype Outcome = Outcome(running: bool, slotId: int, slots: seq<Slot>,
                             replies: seq<Event>, globals: seq<Event>)

  // The handlers compare a received index with the table's upper bound only.
  predicate IndexBelowTable(e: Event) {
    (e.ReqSetBundle? || e.NotifyClosed?) && e.id < 0
  }

  // The session's answer to one event. An index below the table has no defined meaning in the
  // source; the table is then left alone here and the event is reported by `IndexBelowTable`.
  function Handle(running: bool, slotId: int, slots: seq<Slot>, e: Event): Outcome {
    var same := Outcome(running, slotId, slots, [], []);
    match e
    case ReqCheck(_, activity) =>
      var found := First(slots, RunningActivity(activity));
      if found > -1 then same.(slotId := found, replies := [ResCheck(found)])
      else if First(slots, AnyIdle) > -1 then same.(replies := [ResCheck(-1)])
      else same.(running := false, replies := [ResNotAvailable])
    case ReqGetIdle(_, _) =>
      var idle := First(slots, AnyIdle);
      if idle > -1 then
        same.(slotId := idle,
              slots := slots[idle := slots[idle].(status := Reserved)],
              replies := [ResIdleSlot(idle)])
      else same.(replies := [ResNotAvailable])
    case ReqSetBundle(appname, activity, id) =>
      if 0 <= id < |slots| then
        same.(slotId := id, slots := slots[id := Slot(Used, appname, activity)])
      else same
    case ReqCloseByName(appname) =>
      var found := First(slots, RunningApp(appname));
      same.(running := false,
            replies := if found > -1 then [NotifyCloseByNameNotified] else [],
            globals := [NotifyCloseByName(appname, found)])
    case NotifyClosed(id) =>
      same.(running := false,
            slots := if 0 <= id < |slots| then slots[id := slots[id].(status := Idle)] else slots)
    case _ => same
  }

  // A whole queue of events: the session's thread stops at the event that clears `running`.
  function HandleAll(running: bool, slotId: int, slots: seq<Slot>, inbox: seq<Event>): (r: Outcome)
    ensures |r.slots| == |slots|
    decreases |inbox|
  {
    if !running || inbox == [] then Outcome(running, slotId, slots, [], [])
    else
      var one := Handle(running, slotId, slots, inbox[0]);
      var rest := HandleAll(one.running, one.slotId, one.slots, inbox[1..]);
      rest.(replies := one.replies + rest.replies, globals := one.globals + rest.globals)
  }

  // The event log shared by all sessions (`g_eventqueue`).
  class GlobalQueue {
    var events: seq<Event>

    constructor ()
      ensures events == []
    {
      events := [];
    }
  }

  class VatClient {
    var running: bool
    var slotId: int
    var sent: seq<Event>
    const slots: array<Slot>
    const globalQueue: GlobalQueue

    constructor (slots: array<Slot>, globalQueue: GlobalQueue)
      ensures running && slotId == -1 && sent == []
      ensures this.slots == slots && this.globalQueue == globalQueue
    {
      running, slotId, sent := true, -1, [];
      this.slots, this.globalQueue := slots, globalQueue;
    }

    // The fields and both logs hold what `o` says; `sentBefore` and `globalBefore` are kept.
    ghost predicate Shows(o: Outcome, sentBefore: seq<Event>, globalBefore: seq<Event>)
      reads this, slots, globalQueue
    {
      && running == o.running
      && slotId == o.slotId
      && slots[..] == o.slots
      && sent == sentBefore + o.replies
      && globalQueue.events == globalBefore + o.globals
    }

    method FindFirst(q: Query) returns (r: int)
      ensures r == First(slots[..], q)
    {
      var i := 0;
      while i < slots.Length
        invariant 0 <= i <= slots.Length
        invariant forall k :: 0 <= k < i ==> !Matches(slots[k], q)
      {
        if Matches(slots[i], q) {
          FirstIsLowest(slots[..], q, i);
          return i;
        }
        i := i + 1;
      }
      FirstIsLowest(slots[..], q, -1);
      return -1;
    }

    // One loop looks for the activity and, on the way, for any idle slot.
    method CheckIfLaunched(e: Event)
      requires e.ReqCheck?
      modifies this
      ensures Shows(Handle(old(running), old(slotId), old(slots[..]), e), old(sent), old(globalQueue.events))
    {
      var activity := e.activity;
      ghost var table := slots[..];
      var slotFound, idleSlot := -1, -1;
      var i := 0;
      while i < slots.Length && slotFound == -1
        invariant 0 <= i <= slots.Length
        invariant slotFound == -1 ==> forall k :: 0 <= k < i ==> !Matches(slots[k], RunningActivity(activity))
        invariant slotFound == -1 && idleSlot == -1 ==> forall k :: 0 <= k < i ==> slots[k].status != Idle
        invariant -1 <= idleSlot < i && (idleSlot > -1 ==> slots[idleSlot].status == Idle)
        invariant slotFound != -1 ==> IsFirst(slots[..], RunningActivity(activity), slotFound)
      {
        if slots[i].status == Used && Matches(slots[i], RunningActivity(activity)) {
          slotFound := i;
        }
        if slots[i].status == Idle {
          idleSlot := i;
        }
        i := i + 1;
      }
      FirstIsLowest(table, RunningActivity(activity), slotFound);
      if slotFound > -1 {
        slotId := slotFound;
        sent := sent + [ResCheck(slotFound)];
      } else {
        if idleSlot > -1 {
          assert Matches(table[idleSlot], AnyIdle);
          sent := sent + [ResCheck(-1)];
        } else {
          FirstIsLowest(table, AnyIdle, -1);
          running := false;
          sent := sent + [ResNotAvailable];
        }
      }
      assert slots[..] == table;
    }

    method GetIdleSlot(e: Event)
      requires e.ReqGetIdle?
      modifies this, slots
      ensures Shows(Handle(old(running), old(slotId), old(slots[..]), e), old(sent), old(globalQueue.events))
    {
      var idleSlot := FindFirst(AnyIdle);
      if idleSlot > -1 {
        slotId := idleSlot;
        slots[idleSlot] := slots[idleSlot].(status := Reserved);
        sent := sent + [ResIdleSlot(idleSlot)];
      } else {
        sent := sent + [ResNotAvailable];
      }
    }

    method CloseByAppname(e: Event)
      requires e.ReqCloseByName?
      modifies this, globalQueue
      ensures Shows(Handle(old(running), old(slotId), old(slots[..]), e), old(sent), old(globalQueue.events))
    {
      var appname := e.appname;
      var slotFound := FindFirst(RunningApp(appname));
      if slotFound > -1 {
        sent := sent + [NotifyCloseByNameNotified];
      }
      globalQueue.events := globalQueue.events + [NotifyCloseByName(appname, slotFound)];
      running := false;
    }

    method HandleEvent(e: Event)
      requires !IndexBelowTable(e)
      modifies this, slots, globalQueue
      ensures Shows(Handle(old(running), old(slotId), old(slots[..]), e), old(sent), old(globalQueue.events))
    {
      match e {
        case ReqCheck(_, _) => CheckIfLaunched(e);
        case ReqGetIdle(_, _) => GetIdleSlot(e);
        case ReqSetBundle(appname, activity, id) =>
          if id < slots.Length {
            slots[id] := Slot(Used, appname, activity);
            slotId := id;
          }
        case ReqCloseByName(_) => CloseByAppname(e);
        case NotifyClosed(id) =>
          if id < slots.Length {
            slots[id] := slots[id].(status := Idle);
          }
          running := false;
        case _ =>
      }
    }

    // The session thread: events are taken in order until one clears `running`.
    method RunLoop(inbox: seq<Event>)
      requires forall k :: 0 <= k < |inbox| ==> !IndexBelowTable(inbox[k])
      modifies this, slots, globalQueue
      ensures Shows(HandleAll(old(running), old(slotId), old(slots[..]), inbox), old(sent), old(globalQueue.events))
    {
      ghost var goal := HandleAll(running, slotId, slots[..], inbox);
      ghost var rest := goal;
      var queue := inbox;
      while running && queue != []
        invariant forall k :: 0 <= k < |queue| ==> !IndexBelowTable(queue[k])
        invariant rest == HandleAll(running, slotId, slots[..], queue)
        invariant goal == rest.(replies := goal.replies, globals := goal.globals)
        invariant old(sent) + goal.replies == sent + rest.replies
        invariant old(globalQueue.events) + goal.globals == globalQueue.events + rest.globals
        decreases |queue|
      {
        ghost var one := Handle(running, slotId, slots[..], queue[0]);
        ghost var tail := HandleAll(one.running, one.slotId, one.slots, queue[1..]);
        assert sent + rest.replies == (sent + one.replies) + tail.replies;
        assert globalQueue.events + rest.globals == (globalQueue.events + one.globals) + tail.globals;
        HandleEvent(queue[0]);
        queue := queue[1..];
        rest := tail;
      }
      assert rest.replies == [] && rest.globals == [];
    }
  }

  /* ---- What the answers mean ---- */

  predicate Runs(slot: Slot, activity: string) {
    slot.status == Used && Contains(slot.activity, activity)
  }

  // CHECK answers with the lowest used slot running the activity; with -1 when no slot runs it
  // and some slot is idle; with NOT_AVAILABLE when neither; and it only reads the table.
  lemma CheckIsExact(running: bool, slotId: int, slots: seq<Slot>, appname: string, activity: string)
    ensures var o := Handle(running, slotId, slots, ReqCheck(appname, activity));
            && o.slots == slots && o.globals == [] && |o.replies| == 1
            && (forall i :: 0 <= i < |slots| ==>
                  (o.replies == [ResCheck(i)] <==>
                     Runs(slots[i], activity) && forall k :: 0 <= k < i ==> !Runs(slots[k], activity)))
            && (o.replies == [ResCheck(-1)] <==>
                  (forall k :: 0 <= k < |slots| ==> !Runs(slots[k], activity))
                  && exists k :: 0 <= k < |slots| && slots[k].status == Idle)
            && (o.replies == [ResNotAvailable] <==>
                  forall k :: 0 <= k < |slots| ==> !Runs(slots[k], activity) && slots[k].status != Idle)
            && (o.running <==> running && o.replies != [ResNotAvailable])
            && o.slotId == (if o.replies[0].ResCheck? && o.replies[0].id >= 0 then o.replies[0].id else slotId)
  {
    var q := RunningActivity(activity);
    var found, idle := First(slots, q), First(slots, AnyIdle);
    assert forall k :: 0 <= k < |slots| ==> (Matches(slots[k], q) <==> Runs(slots[k], activity));
    if found > -1 {
      assert Runs(slots[found], activity);
    } else if idle > -1 {
      assert Matches(slots[idle], AnyIdle) && slots[idle].status == Idle;
    } else {
      assert forall k :: 0 <= k < |slots| ==> !Matches(slots[k], AnyIdle);
    }
  }

  predicate RunsApp(slot: Slot, appname: string) {
    slot.status == Used && Contains(slot.appname, appname)
  }

  // The lowest used slot whose application name contains the name.
  predicate LowestRunning(slots: seq<Slot>, appname: string, i: nat) {
    i < |slots| && RunsApp(slots[i], appname) && forall k :: 0 <= k < i ==> !RunsApp(slots[k], appname)
  }

  predicate NobodyRuns(slots: seq<Slot>, appname: string) {
    forall k :: 0 <= k < |slots| ==> !RunsApp(slots[k], appname)
  }

  // A request to close asks for the lowest used slot with the application name, and tells the requester,
  // if there is one; if there is none it asks for slot -1 and tells nobody. The session stops.
  lemma CloseIsExact(running: bool, slotId: int, slots: seq<Slot>, appname: string)
    ensures var o := Handle(running, slotId, slots, ReqCloseByName(appname));
            && o.slots == slots && o.slotId == slotId && !o.running
            && (forall i: nat :: LowestRunning(slots, appname, i) <==>
                  o.globals == [NotifyCloseByName(appname, i)] && o.replies == [NotifyCloseByNameNotified])
            && (NobodyRuns(slots, appname) <==> o.globals == [NotifyCloseByName(appname, -1)] && o.replies == [])
            && (NobodyRuns(slots, appname) || exists i: nat :: LowestRunning(slots, appname, i))
  {
    var q := RunningApp(appname);
    var found := First(slots, q);
    assert forall k :: 0 <= k < |slots| ==> (Matches(slots[k], q) <==> RunsApp(slots[k], appname));
    if found > -1 {
      assert LowestRunning(slots, appname, found);
      assert RunsApp(slots[found], appname);
    }
  }

  // A bundle fills the slot it names and a close empties the slot it names, keeping its names; a number
  // outside the table changes nothing in it. The session carries the slot it filled, and stops on a close.
  lemma UpdatesAreExact(running: bool, slotId: int, slots: seq<Slot>, e: Event)
    requires e.ReqSetBundle? || e.NotifyClosed?
    ensures var o, inside := Handle(running, slotId, slots, e), 0 <= e.id < |slots|;
            && o.replies == [] && o.globals == [] && |o.slots| == |slots|
            && (forall k :: 0 <= k < |slots| && k != e.id ==> o.slots[k] == slots[k])
            && o.running == (running && e.ReqSetBundle?)
            && o.slotId == (if inside && e.ReqSetBundle? then e.id else slotId)
            && (inside && e.ReqSetBundle? ==> o.slots[e.id] == Slot(Used, e.appname, e.activity))
            && (inside && e.NotifyClosed? ==> o.slots[e.id] == Slot(Idle, slots[e.id].appname, slots[e.id].activity))
  {
  }

  // Other events mean nothing to a session.
  lemma OthersAreIgnored(running: bool, slotId: int, slots: seq<Slot>, e: Event)
    requires Kind(e) !in {Kind(ReqCheck("", "")), Kind(ReqGetIdle("", "")), Kind(ReqSetBundle("", "", 0)),
                          Kind(ReqCloseByName("")), Kind(NotifyClosed(0))}
    ensures Handle(running, slotId, slots, e) == Outcome(running, slotId, slots, [], [])
  {
  }

  // GET_IDLE answers NOT_AVAILABLE exactly when every slot is taken; otherwise it reserves the
  // lowest idle slot and touches no other.
  lemma GetIdleIsExact(running: bool, slotId: int, slots: seq<Slot>, appname: string, activity: string)
    ensures var o := Handle(running, slotId, slots, ReqGetIdle(appname, activity));
            && |o.replies| == 1 && o.globals == [] && o.running == running
            && (o.replies == [ResNotAvailable] ==> o.slotId == slotId)
            && (o.replies == [ResNotAvailable] <==> Busy(slots) == |slots|)
            && (o.replies == [ResNotAvailable] ==> o.slots == slots)
            && (o.replies != [ResNotAvailable] ==>
                  exists g :: 0 <= g < |slots| && slots[g].status == Idle
                    && (forall k :: 0 <= k < g ==> slots[k].status != Idle)
                    && o.replies == [ResIdleSlot(g)] && o.slotId == g
                    && o.slots == slots[g := slots[g].(status := Reserved)])
  {
    var g := First(slots, AnyIdle);
    FullIsBusy(slots);
    assert forall k :: 0 <= k < |slots| ==> (Matches(slots[k], AnyIdle) <==> slots[k].status == Idle);
    if g >= 0 {
      assert slots[g].status == Idle;
    }
  }
}
