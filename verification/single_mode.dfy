// The build with a single slot (LG_SINGLE_MODE): the slot remembers the application opened last.

module SingleMode {
  import opened Wrappers
  import opened Text
  import opened Events
  import opened Slots
  import opened LGLauncher
  import S = VatSession

  datatype Session = Session(running: bool, appname: string, activity: string)

  datatype Outcome = Outcome(session: Session, slot: Slot, replies: seq<Event>, globals: seq<Event>)

  // `HandleEventSingleLG`
  function Handle(session: Session, slot: Slot, e: Event): Outcome {
    var same := Outcome(session, slot, [], []);
    match e
    case ReqCheck(_, _) => same.(replies := [ResCheck(-1)])
    case ReqGetIdle(_, _) => same.(replies := [ResIdleSlot(0)])
    case ReqSetBundle(appname, activity, _) =>
      same.(session := session.(appname := appname, activity := activity), slot := Slot(Used, appname, activity))
    case ReqCloseByName(appname) =>
      same.(session := session.(running := false), replies := [NotifyCloseByNameNotified],
            globals := [NotifyCloseByName(appname, 0)])
    case ReqCloseLastOpened =>
      var done := same.(session := session.(running := false));
      if slot.status != Used then done.(replies := [ResNoLastOpened])
      else done.(replies := [ResCloseLastOpened(slot.appname, slot.activity)],
                 globals := [NotifyCloseByName(slot.appname, 0)])
    case NotifyClosed(_) => same.(session := session.(running := false))
    case _ => same
  }

  // What the loop over global events does to the slot, given the sessions' application names.
  function AfterGlobal(slot: Slot, names: map<int, string>, e: Event): Slot {
    if e.NotifyCloseByName? && (exists fd :: fd in names && Contains(names[fd], e.appname))
       && Contains(slot.appname, e.appname) && slot.status != Idle
    then slot.(status := Idle)
    else slot
  }

  class SingleVatClient {
    var running: bool
    var appname: string
    var activity: string
    var sent: seq<Event>
    const slots: array<Slot>
    const globalQueue: S.GlobalQueue

    constructor (slots: array<Slot>, globalQueue: S.GlobalQueue)
      ensures this.slots == slots && this.globalQueue == globalQueue
      ensures Value() == Session(true, "", "") && sent == []
    {
      running, appname, activity, sent := true, "", "", [];
      this.slots, this.globalQueue := slots, globalQueue;
    }

    function Value(): Session
      reads this
    {
      Session(running, appname, activity)
    }

    method HandleEvent(e: Event)
      requires slots.Length == 1
      modifies this, slots, globalQueue
      ensures var o := Handle(old(Value()), old(slots[0]), e);
              && Value() == o.session && slots[0] == o.slot
              && sent == old(sent) + o.replies && globalQueue.events == old(globalQueue.events) + o.globals
    {
      match e {
        case ReqCheck(_, _) => sent := sent + [ResCheck(-1)];
        case ReqGetIdle(_, _) => sent := sent + [ResIdleSlot(0)];
        case ReqSetBundle(name, act, _) =>
          activity := act;
          appname := name;
          slots[0] := Slot(Used, name, act);
        case ReqCloseByName(name) =>
          sent := sent + [NotifyCloseByNameNotified];
          globalQueue.events := globalQueue.events + [NotifyCloseByName(name, 0)];
          running := false;
        case ReqCloseLastOpened =>
          if slots[0].status != Used {
            sent := sent + [ResNoLastOpened];
          } else {
            sent := sent + [ResCloseLastOpened(slots[0].appname, slots[0].activity)];
            globalQueue.events := globalQueue.events + [NotifyCloseByName(slots[0].appname, 0)];
          }
          running := false;
        case NotifyClosed(_) => running := false;
        case _ =>
      }
    }
  }

  // The daemon's global handler: `clients` in the order of their fds.
  method HandleGlobal(clients: seq<SingleVatClient>, slots: array<Slot>, e: Event) returns (told: Option<nat>)
    requires slots.Length == 1
    requires forall i, j :: 0 <= i < j < |clients| ==> clients[i] != clients[j]
    modifies slots, clients
    ensures slots[0] == AfterGlobal(old(slots[0]), map i | 0 <= i < |clients| :: old(clients[i].appname), e)
    ensures told.Some? ==>
              && told.value < |clients| && e.NotifyCloseByName?
              && Contains(old(clients[told.value].appname), e.appname)
              && (forall i :: 0 <= i < told.value ==> !Contains(old(clients[i].appname), e.appname))
              && clients[told.value].sent == old(clients[told.value].sent) + [NotifyAppDied(-1)]
              && clients[told.value].Value() == old(clients[told.value].Value())
    ensures told == None ==>
              !e.NotifyCloseByName? || forall i :: 0 <= i < |clients| ==> !Contains(old(clients[i].appname), e.appname)
    ensures forall i :: 0 <= i < |clients| && told != Some(i) ==> unchanged(clients[i])
  {
    told := None;
    ghost var names := map i | 0 <= i < |clients| :: clients[i].appname;
    if e.NotifyCloseByName? {
      var i := 0;
      while i < |clients|
        invariant 0 <= i <= |clients|
        invariant forall k :: 0 <= k < i ==> !Contains(clients[k].appname, e.appname)
        invariant forall k :: 0 <= k < |clients| ==> unchanged(clients[k])
        invariant unchanged(slots)
      {
        if Contains(clients[i].appname, e.appname) {
          assert Contains(names[i], e.appname);
          if Contains(slots[0].appname, e.appname) && slots[0].status != Idle {
            slots[0] := slots[0].(status := Idle);
          }
          clients[i].sent := clients[i].sent + [NotifyAppDied(-1)];
          return Some(i);
        }
        i := i + 1;
      }
    }
  }

  /* ---- Histories ---- */

  datatype Item =
    | Joined(fd: int)
    | Left(fd: int)
    | Handled(fd: int, e: Event)  // by the session of this connection
    | Global(e: Event)            // by the daemon

  datatype Daemon = Daemon(slot: Slot, names: map<int, string>)

  function Next(d: Daemon, item: Item): Daemon {
    match item
    case Joined(fd) => if fd in d.names then d else d.(names := d.names[fd := ""])
    case Left(fd) => d.(names := d.names - {fd})
    case Handled(fd, e) =>
      var o := Handle(Session(true, if fd in d.names then d.names[fd] else "", ""), d.slot, e);
      Daemon(o.slot, if fd in d.names then d.names[fd := o.session.appname] else d.names)
    case Global(e) => d.(slot := AfterGlobal(d.slot, d.names, e))
  }

  function After(h: seq<Item>): Daemon {
    if h == [] then Daemon(Slot(Idle, "", ""), map[])
    else Next(After(h[..|h| - 1]), h[|h| - 1])
  }

  // The answer to "close the application opened last" after a history.
  function LastOpened(h: seq<Item>): Event {
    Handle(Session(true, "", ""), After(h).slot, ReqCloseLastOpened).replies[0]
  }

  /* ---- What the history itself says ---- */

  predicate IsSet(item: Item) { item.Handled? && item.e.ReqSetBundle? }

  // The last bundle handled, -1 if none was.
  function LastSet(h: seq<Item>): (k: int)
    ensures -1 <= k < |h|
    ensures k >= 0 ==> IsSet(h[k])
    ensures forall j :: k < j < |h| ==> !IsSet(h[j])
  {
    if h == [] then -1
    else if IsSet(h[|h| - 1]) then |h| - 1
    else LastSet(h[..|h| - 1])
  }

  // The application name of the session on `fd` after the history, if there is one: that of the
  // last bundle it handled since it joined.
  function NameOn(h: seq<Item>, fd: int): Option<string> {
    if h == [] then None
    else
      var before := NameOn(h[..|h| - 1], fd);
      match h[|h| - 1]
      case Joined(f) => if f == fd && before == None then Some("") else before
      case Left(f) => if f == fd then None else before
      case Handled(f, e) => if f == fd && before.Some? && e.ReqSetBundle? then Some(e.appname) else before
      case Global(_) => before
  }

  // Item `j` is a close, for a name within `appname` and within some connected session's name.
  ghost predicate Closes(h: seq<Item>, j: nat, appname: string)
    requires j < |h|
  {
    && h[j].Global? && h[j].e.NotifyCloseByName?
    && Contains(appname, h[j].e.appname)
    && exists fd :: NameOn(h[..j], fd).Some? && Contains(NameOn(h[..j], fd).value, h[j].e.appname)
  }

  ghost predicate Cleared(h: seq<Item>) {
    var k := LastSet(h);
    k == -1 || exists j :: k < j < |h| && Closes(h, j, h[k].e.appname)
  }

  lemma {:induction false} NamesFromHistory(h: seq<Item>, fd: int)
    ensures var names := After(h).names;
            NameOn(h, fd) == if fd in names then Some(names[fd]) else None
  {
    if h != [] {
      NamesFromHistory(h[..|h| - 1], fd);
    }
  }

  lemma ClosesMatchesGlobal(h: seq<Item>, j: nat, slot: Slot)
    requires j < |h| && h[j].Global? && slot.status != Idle
    ensures AfterGlobal(slot, After(h[..j]).names, h[j].e).status == Idle <==> Closes(h, j, slot.appname)
  {
    var names := After(h[..j]).names;
    forall fd ensures NameOn(h[..j], fd) == if fd in names then Some(names[fd]) else None {
      NamesFromHistory(h[..j], fd);
    }
    if AfterGlobal(slot, names, h[j].e).status == Idle {
      var fd :| fd in names && Contains(names[fd], h[j].e.appname);
      assert NameOn(h[..j], fd).Some?;
    }
  }

  // The slot is the register: used, with the names of the last bundle, until that bundle is cleared; and
  // the names stay even then.
  lemma {:induction false} SlotIsRegister(h: seq<Item>)
    ensures var slot := After(h).slot;
            && (if Cleared(h) then slot.status == Idle else slot.status == Used)
            && (if LastSet(h) == -1 then slot.appname == slot.activity == ""
                else slot.appname == h[LastSet(h)].e.appname && slot.activity == h[LastSet(h)].e.activity)
  {
    if h != [] {
      var n := |h| - 1;
      var before := h[..n];
      SlotIsRegister(before);
      var k := LastSet(before);
      if IsSet(h[n]) {
        assert !Cleared(h);
      } else {
        assert LastSet(h) == k;
        assert h[..n] == before;
        if k >= 0 {
          assert before[k] == h[k];
          forall j | k < j < n ensures Closes(before, j, h[k].e.appname) <==> Closes(h, j, h[k].e.appname) {
            assert before[..j] == h[..j] && before[j] == h[j];
          }
          if !Cleared(before) && h[n].Global? {
            ClosesMatchesGlobal(h, n, After(before).slot);
          }
        }
      }
    }
  }

  /* ---- What a session answers ---- */

  // Every launch is told that its application does not run and is given slot 0; every request to close
  // by name is passed on; only a bundle changes the slot and the names of the session.
  lemma AnswersExactly(session: Session, slot: Slot, e: Event)
    ensures var o := Handle(session, slot, e);
            && (e.ReqCheck? ==> o.replies == [ResCheck(-1)])
            && (e.ReqGetIdle? ==> o.replies == [ResIdleSlot(0)])
            && (e.ReqCloseByName? ==> o.replies == [NotifyCloseByNameNotified])
            && (!e.ReqCheck? && !e.ReqGetIdle? && !e.ReqCloseByName? && !e.ReqCloseLastOpened? ==> o.replies == [])
            && (e.ReqCloseByName? ==> o.globals == [NotifyCloseByName(e.appname, 0)])
            && (!e.ReqCloseByName? && !e.ReqCloseLastOpened? ==> o.globals == [])
            && (o.session.running <==>
                  session.running && !e.ReqCloseByName? && !e.ReqCloseLastOpened? && !e.NotifyClosed?)
            && (if e.ReqSetBundle?
                then o.slot == Slot(Used, e.appname, e.activity)
                     && o.session.appname == e.appname && o.session.activity == e.activity
                else o.slot == slot && o.session.appname == session.appname && o.session.activity == session.activity)
  {
  }

  // Asked for the application opened last, a session answers with the most recent bundle; with "no
  // app" if and only if none was set, or a close that matches it was handled since.
  lemma LastOpenedIsExact(h: seq<Item>)
    ensures LastOpened(h) == ResNoLastOpened <==> Cleared(h)
    ensures !Cleared(h) ==>
              LastSet(h) >= 0
              && LastOpened(h) == ResCloseLastOpened(h[LastSet(h)].e.appname, h[LastSet(h)].e.activity)
  {
    SlotIsRegister(h);
  }

  /* ---- Whole dialogues with a launcher ---- */

  lemma OneReply(c: Launcher, e: Event)
    requires c.running
    ensures ReactAll(c, [e]) == Reaction(React(c, e).next, React(c, e).sends)
  {
    assert [e][1..] == [];
    assert React(c, e).sends + [] == React(c, e).sends;
  }

  // A launch is granted slot 0 and takes the slot over, whatever it holds and whoever shows in it.
  lemma LaunchTakesOver(session: Session, slot: Slot, appname: string, pkgname: string, activity: string)
    ensures var c := Started(appname, pkgname, activity);
            var o1 := Handle(session, slot, Opening(Launch, c));
            var n1 := ReactAll(c, o1.replies);
            && |n1.sends| == 1 && n1.next.running
            && var o2 := Handle(o1.session, o1.slot, n1.sends[0]);
               var n2 := ReactAll(n1.next, o2.replies);
               && |n2.sends| == 1 && n2.next.running && n2.next.threadCreated && n2.next.instanceId == Some(0)
               && var o3 := Handle(o2.session, o2.slot, n2.sends[0]);
                  && o3.slot == Slot(Used, appname, activity) && o3.replies == [] && o3.globals == []
                  && o3.session == Session(session.running, appname, activity)
  {
    var c := Started(appname, pkgname, activity);
    OneReply(c, ResCheck(-1));
    OneReply(c, ResIdleSlot(0));
  }

  // One that asks to close by name stops with result 0, whether or not such an application was opened.
  lemma CloseIsPassedOn(session: Session, slot: Slot, appname: string, pkgname: string, activity: string)
    ensures var c := Started(appname, pkgname, activity);
            var o := Handle(session, slot, Opening(CloseByName, c));
            var n := ReactAll(c, o.replies);
            && !n.next.running && n.next.result == 0 && n.sends == [] && !o.session.running && o.slot == slot
            && o.globals == [NotifyCloseByName(appname, 0)]
  {
    OneReply(Started(appname, pkgname, activity), NotifyCloseByNameNotified);
  }

  // One that asks to close the application opened last stops: with result -1 and its own names if and
  // only if there is none, else with result 0 and the names of the last bundle, whose close is passed on.
  lemma LastOpenedIsClosed(h: seq<Item>, session: Session, appname: string, pkgname: string, activity: string)
    ensures var c := Started(appname, pkgname, activity);
            var o := Handle(session, After(h).slot, Opening(CloseLastOpened, c));
            var n := ReactAll(c, o.replies);
            && !n.next.running && n.sends == [] && !o.session.running && o.slot == After(h).slot
            && if Cleared(h)
               then n.next == c.(running := false, result := -1) && o.globals == []
               else
                 && LastSet(h) >= 0
                 && var last := h[LastSet(h)].e;
                    && n.next == c.(running := false, appname := last.appname, pkgname := last.appname,
                                    activity := last.activity)
                    && o.globals == [NotifyCloseByName(last.appname, 0)]
  {
    SlotIsRegister(h);
    var o := Handle(session, After(h).slot, ReqCloseLastOpened);
    OneReply(Started(appname, pkgname, activity), o.replies[0]);
  }
}
