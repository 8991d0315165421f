// What every reachable state of the launch protocol satisfies, whatever the names of applications are
// and whatever receivers make of them.

module ProtocolInvariant {
  import opened Wrappers
  import opened Events
  import opened Slots
  import opened VatSession
  import opened LGLauncher
  import opened Numerals
  import opened Protocol

  /* ---- What a receiver cannot get wrong ---- */

  predicate Numeric(e: Event) { e.ResCheck? || e.ResIdleSlot? || e.NotifyAppDied? || e.NotifyClosed? }

  predicate Wordless(e: Event) {
    || e.ResNotAvailable? || e.NotifyInstalled? || e.NotifyUninstalled? || e.NotifyCloseByNameNotified?
    || e.ReqCloseLastOpened? || e.ResNoLastOpened? || e.ConnectionClosed?
  }

  // A message with no name in it, and a number that a C integer holds.
  predicate Nameless(e: Event) { Wordless(e) || (Numeric(e) && IsInt32(e.id)) }

  // `e` is of the same type as `m`, and the same when `m` has no name in it.
  predicate Alike(e: Event, m: Event) { Kind(e) == Kind(m) && (Nameless(m) ==> e == m) }

  // Receivers read the type of every message, and messages without names as they were sent.
  ghost predicate Sound(r: Reader) {
    && (forall m, p :: r(m, p).Some? ==> Alike(r(m, p).value, m))
    && (forall m, p :: Nameless(m) ==> r(m, p) == Some(m))
  }

  // Slot numbers are C integers.
  const MAX_SLOTS := 0x8000_0000

  /* ---- Phases of a launch ---- */

  // What the session has yet to handle, and what the launcher has yet to handle, in order.
  function Pending(l: Link): seq<Event> { l.session.inbox + l.up }
  function Coming(l: Link): seq<Event> { l.client.inbox + l.down }

  predicate AllDied(c: seq<Event>, from: nat) {
    forall k :: from <= k < |c| ==> c[k].NotifyAppDied?
  }

  predicate PastSending(exec: Exec) { exec == Ending || exec == Done }
  predicate Waiting(c: Client) { c.core.running && c.looping }
  predicate Stopped(c: Client) { !c.core.running && !c.looping }

  // A launcher sends CHECK, GET_IDLE, SET_BUNDLE with its granted slot, then closes of that slot.
  predicate LaunchSent(l: Link) {
    var c := l.client.core;
    var n := |l.sent|;
    && 1 <= n
    && l.sent[0] == ReqCheck(c.appname, c.activity)
    && (n >= 2 ==> l.sent[1] == ReqGetIdle(c.appname, c.activity))
    && (n >= 3 ==> l.granted.Some? && l.sent[2] == ReqSetBundle(c.appname, c.activity, l.granted.value))
    && (forall k :: 3 <= k < n ==> l.sent[k] == NotifyClosed(l.granted.value))
    && n <= 3 + (if PastSending(l.client.exec) then 1 else 0)
              + (if l.client.looping then 0 else 1)
  }

  // Only CHECK is sent: the answer, once given, is on its way, or the launcher has stopped on it.
  predicate Checking(l: Link) {
    var c := Coming(l);
    if l.handled == 0 then
      Waiting(l.client) && c == [] && l.session.slotId == -1
    else
      || (Stopped(l.client) && AllDied(c, 0))
      || (Waiting(l.client) && l.session.slotId == -1 && (c == [ResCheck(-1)] || c == [ResNotAvailable]))
      || (Waiting(l.client) && |c| >= 1 && c[0].ResCheck? && c[0].id >= 0 && AllDied(c, 1))
  }

  // GET_IDLE is sent too.
  predicate Requesting(l: Link) {
    var c := Coming(l);
    if l.handled <= 1 then
      l.handled == 1 && Waiting(l.client) && c == [] && l.session.slotId == -1
    else if l.granted.Some? then
      && Waiting(l.client) && l.session.slotId == l.granted.value
      && |c| >= 1 && c[0] == ResIdleSlot(l.granted.value) && AllDied(c, 1)
    else
      && l.session.slotId == -1
      && ((Waiting(l.client) && c == [ResNotAvailable]) || (Stopped(l.client) && c == []))
  }

  // The launcher has accepted its slot and started the viewer. A misread bundle may have left its
  // session with the number of another slot.
  predicate Holding(l: Link) {
    && l.granted.Some? && l.handled >= 2
    && l.session.slotId > -1
    && l.client.core.instanceId == Some(l.granted.value)
    && AllDied(Coming(l), 0)
  }

  predicate LaunchInv(l: Link) {
    var n := |l.sent|;
    && LaunchSent(l)
    && (l.granted.Some? ==> l.handled >= 2)
    && (l.client.exec != NotStarted <==> n >= 3)
    && (l.client.core.threadCreated <==> n >= 3)
    && (n == 3 ==> l.client.core.running && !PastSending(l.client.exec))
    && l.handled <= 4 && (l.handled == 4 ==> !l.session.looping)
    && (if n == 1 then Checking(l) else if n == 2 then Requesting(l) else Holding(l))
  }

  // A launcher that only asks for a close is never told anything but that the request arrived.
  predicate CloserInv(l: Link) {
    && l.sent == [Opening(l.client.mode, l.client.core)]
    && l.session.slotId == -1 && l.granted == None
    && l.client.exec == NotStarted && !l.client.core.threadCreated && l.client.core.instanceId == None
    && (Coming(l) == [] || (l.client.mode == CloseByName && l.handled == 1 && Coming(l) == [NotifyCloseByNameNotified]))
  }

  // The messages to the session are those sent and not handled, in order; those to the launcher have
  // no names in them.
  predicate QueuesInv(l: Link) {
    && l.handled <= |l.sent| && Pending(l) == l.sent[l.handled..]
    && (forall k :: 0 <= k < |Coming(l)| ==> Nameless(Coming(l)[k]))
    && IsInt32(l.session.slotId) && (l.granted.Some? ==> IsInt32(l.granted.value))
  }

  predicate FlagsInv(l: Link) {
    && (l.session.running ==> l.session.looping)
    && (l.client.core.running ==> l.client.looping)
  }

  predicate PhaseInv(l: Link) {
    if l.client.mode == Launch then LaunchInv(l) else CloserInv(l)
  }

  predicate LinkInv(l: Link) { QueuesInv(l) && FlagsInv(l) && PhaseInv(l) }

  // The session was granted a slot and has not handled its close.
  predicate Outstanding(l: Link) { l.granted.Some? && l.handled < 4 }

  // The owner of a slot was granted it and has not given it back, and the slot is not idle. A slot
  // that is not idle may be without owner: a misread bundle can have taken it.
  predicate SlotInv(s: State, g: nat)
    requires g < |s.slots| == |s.owner|
  {
    match s.owner[g]
    case None => true
    case Some(i) =>
      && i < |s.links| && Outstanding(s.links[i]) && s.links[i].granted == Some(g)
      && s.slots[g].status != Idle
  }

  predicate OwnsGrant(s: State, i: nat)
    requires i < |s.links|
  {
    var l := s.links[i];
    && -1 <= l.session.slotId < |s.owner|
    && (l.granted.Some? ==> l.granted.value < |s.owner|)
    && (Outstanding(l) ==> l.client.mode == Launch && s.owner[l.granted.value] == Some(i))
  }

  ghost predicate TableInv(s: State) {
    && |s.owner| == |s.slots| < MAX_SLOTS
    && (forall i :: 0 <= i < |s.links| ==> OwnsGrant(s, i))
    && (forall g :: 0 <= g < |s.slots| ==> SlotInv(s, g))
  }

  ghost predicate Inv(s: State) {
    && TableInv(s)
    && forall i :: 0 <= i < |s.links| ==> LinkInv(s.links[i])
  }

  /* ---- Moves of one connection ---- */

  // A move that leaves the table alone keeps the grant record and the names of the launcher.
  predicate SameRecord(l: Link, l': Link) {
    && l'.granted == l.granted && l'.handled == l.handled && l'.client.mode == l.client.mode
    && l'.session.slotId == l.session.slotId
    && l'.client.core.appname == l.client.core.appname && l'.client.core.pkgname == l.client.core.pkgname
    && l'.client.core.activity == l.client.core.activity
  }

  lemma DeliverKeepsOrder(a: seq<Event>, b: seq<Event>)
    requires b != []
    ensures (a + [b[0]]) + b[1..] == a + b
  {
  }

  lemma AppendKeepsSuffix(sent: seq<Event>, more: seq<Event>, h: nat)
    requires h <= |sent|
    ensures (sent + more)[h..] == sent[h..] + more
  {
  }

  // The queues after a launcher's move.
  lemma SendQueues(l: Link, client: Client, sends: seq<Event>)
    requires QueuesInv(l)
    requires client.inbox == l.client.inbox || (l.client.inbox != [] && client.inbox == l.client.inbox[1..])
    ensures QueuesInv(Send(l, client, sends)) && Coming(Send(l, client, sends)) == client.inbox + l.down
  {
    var l' := Send(l, client, sends);
    AppendKeepsSuffix(l.sent, sends, l.handled);
    assert Pending(l') == Pending(l) + sends;
    if client.inbox != l.client.inbox {
      TailOfComing(l.client.inbox, l.down);
      assert forall k :: 0 <= k < |Coming(l')| ==> Coming(l')[k] == Coming(l)[k + 1];
    } else {
      assert Coming(l') == Coming(l);
    }
  }

  lemma TailOfComing(inbox: seq<Event>, down: seq<Event>)
    requires inbox != []
    ensures (inbox + down)[1..] == inbox[1..] + down && (inbox + down)[0] == inbox[0]
  {
  }

  lemma ReactsQueues(l: Link)
    requires QueuesInv(l) && l.client.inbox != []
    ensures var l' := Reacts(l, l.client.inbox[0]);
            && QueuesInv(l') && Coming(l') == Coming(l)[1..] && Coming(l)[0] == l.client.inbox[0]
            && Nameless(l.client.inbox[0])
  {
    var e := l.client.inbox[0];
    SendQueues(l, Reacts(l, e).client, React(l.client.core, e).sends);
    TailOfComing(l.client.inbox, l.down);
  }

  predicate CanReact(l: Link) { l.client.looping && l.client.inbox != [] }

  // On the answer to CHECK a launcher asks for a slot or stops.
  lemma CheckingAsks(l: Link)
    requires LinkInv(l) && CanReact(l) && l.client.mode == Launch && |l.sent| == 1 && l.client.inbox[0] == ResCheck(-1)
    ensures LinkInv(Reacts(l, l.client.inbox[0])) && SameRecord(l, Reacts(l, l.client.inbox[0]))
  {
    ReactsQueues(l);
  }

  lemma CheckingStops(l: Link)
    requires LinkInv(l) && CanReact(l) && l.client.mode == Launch && |l.sent| == 1 && l.client.inbox[0] != ResCheck(-1)
    ensures LinkInv(Reacts(l, l.client.inbox[0])) && SameRecord(l, Reacts(l, l.client.inbox[0]))
  {
    ReactsQueues(l);
    assert l.client.inbox[0] == ResNotAvailable || (l.client.inbox[0].ResCheck? && l.client.inbox[0].id >= 0);
  }

  lemma RequestingAccepts(l: Link)
    requires LinkInv(l) && CanReact(l) && l.client.mode == Launch && |l.sent| == 2 && l.client.inbox[0].ResIdleSlot?
    ensures LinkInv(Reacts(l, l.client.inbox[0])) && SameRecord(l, Reacts(l, l.client.inbox[0]))
  {
    ReactsQueues(l);
  }

  lemma RequestingStops(l: Link)
    requires LinkInv(l) && CanReact(l) && l.client.mode == Launch && |l.sent| == 2 && !l.client.inbox[0].ResIdleSlot?
    ensures LinkInv(Reacts(l, l.client.inbox[0])) && SameRecord(l, Reacts(l, l.client.inbox[0]))
  {
    ReactsQueues(l);
    assert l.client.inbox[0] == ResNotAvailable;
  }

  lemma HoldingReacts(l: Link)
    requires LinkInv(l) && CanReact(l) && l.client.mode == Launch && |l.sent| >= 3
    ensures LinkInv(Reacts(l, l.client.inbox[0])) && SameRecord(l, Reacts(l, l.client.inbox[0]))
  {
    ReactsQueues(l);
    assert l.client.inbox[0].NotifyAppDied?;
  }

  lemma CloserReacts(l: Link)
    requires LinkInv(l) && CanReact(l) && l.client.mode != Launch
    ensures LinkInv(Reacts(l, l.client.inbox[0])) && SameRecord(l, Reacts(l, l.client.inbox[0]))
  {
    ReactsQueues(l);
    assert l.client.inbox[0] == NotifyCloseByNameNotified;
  }

  lemma ReactsInv(l: Link)
    requires LinkInv(l) && CanReact(l)
    ensures LinkInv(Reacts(l, l.client.inbox[0])) && SameRecord(l, Reacts(l, l.client.inbox[0]))
  {
    if l.client.mode != Launch {
      CloserReacts(l);
    } else if |l.sent| == 1 {
      if l.client.inbox[0] == ResCheck(-1) {
        CheckingAsks(l);
      } else {
        CheckingStops(l);
      }
    } else if |l.sent| == 2 {
      if l.client.inbox[0].ResIdleSlot? {
        RequestingAccepts(l);
      } else {
        RequestingStops(l);
      }
    } else {
      HoldingReacts(l);
    }
  }

  // What the launcher reads at the head of its queue is what the daemon sent.
  lemma HeadReads(r: Reader, l: Link)
    requires Sound(r) && QueuesInv(l) && l.client.inbox != []
    ensures r(l.client.inbox[0], "") == Some(l.client.inbox[0])
  {
    assert Coming(l)[0] == l.client.inbox[0];
  }

  // Two connections that differ in nothing the invariant reads, or only towards the end of a run.
  predicate SameButFlags(l: Link, l': Link) {
    && Coming(l') == Coming(l) && Pending(l') == Pending(l) && l'.sent == l.sent
    && l'.handled == l.handled && l'.granted == l.granted && l'.session.slotId == l.session.slotId
    && l'.client.mode == l.client.mode
    && (l'.client.core == l.client.core || (|l.sent| > 3 && l'.client.core == l.client.core.(running := false)))
    && (l'.client.exec == NotStarted <==> l.client.exec == NotStarted)
    && (PastSending(l.client.exec) ==> PastSending(l'.client.exec))
    && (|l.sent| == 3 ==> !PastSending(l'.client.exec))
    && (l'.client.looping == l.client.looping || (!l.client.core.running && l.client.looping))
    && (l'.session.running ==> l.session.running && l'.session.looping)
    && (l'.session.looping ==> l.session.looping)
  }

  lemma SameButFlagsInv(l: Link, l': Link)
    requires LinkInv(l) && SameButFlags(l, l')
    ensures LinkInv(l') && SameRecord(l, l')
  {
    assert FlagsInv(l');
    assert QueuesInv(l');
  }

  lemma SendingMoveInv(l: Link)
    requires LinkInv(l) && l.client.exec == Sending
    ensures LinkInv(ExecMove(l)) && SameRecord(l, ExecMove(l))
  {
    var l' := ExecMove(l);
    SendQueues(l, l'.client, [CloseReport(l.client.core)]);
    assert Coming(l') == Coming(l);
  }

  lemma ExecMoveInv(l: Link)
    requires LinkInv(l) && l.client.exec != NotStarted && l.client.exec != Done
    ensures LinkInv(ExecMove(l)) && SameRecord(l, ExecMove(l))
  {
    if l.client.exec == Sending {
      SendingMoveInv(l);
    } else {
      QuietExecMove(l);
      SameButFlagsInv(l, ExecMove(l));
    }
  }

  lemma QuietExecMove(l: Link)
    requires LinkInv(l) && (l.client.exec == Loading || l.client.exec == Exited || l.client.exec == Ending)
    ensures SameButFlags(l, ExecMove(l))
  {
    assert l.client.mode == Launch && |l.sent| >= 3;
  }

  lemma UpDeliverInv(r: Reader, l: Link, step: Step)
    requires LinkInv(l) && step.UpDeliver? && LocalEnabled(r, l, step)
    ensures LinkInv(LocalMove(r, l, step)) && SameRecord(l, LocalMove(r, l, step))
  {
    DeliverKeepsOrder(l.session.inbox, l.up);
    SameButFlagsInv(l, LocalMove(r, l, step));
  }

  lemma DownDeliverInv(r: Reader, l: Link, step: Step)
    requires LinkInv(l) && step.DownDeliver? && LocalEnabled(r, l, step)
    ensures LinkInv(LocalMove(r, l, step)) && SameRecord(l, LocalMove(r, l, step))
  {
    DeliverKeepsOrder(l.client.inbox, l.down);
    SameButFlagsInv(l, LocalMove(r, l, step));
  }

  lemma SessionFlagInv(r: Reader, l: Link, step: Step)
    requires LinkInv(l) && (step.SessionWake? || step.ReadError? || step.Release?) && LocalEnabled(r, l, step)
    ensures LinkInv(LocalMove(r, l, step)) && SameRecord(l, LocalMove(r, l, step))
  {
    SameButFlagsInv(l, LocalMove(r, l, step));
  }

  lemma ClientFlagInv(r: Reader, l: Link, step: Step)
    requires LinkInv(l) && (step.ClientWake? || step.Crash?) && LocalEnabled(r, l, step)
    ensures LinkInv(LocalMove(r, l, step)) && SameRecord(l, LocalMove(r, l, step))
  {
    SameButFlagsInv(l, LocalMove(r, l, step));
  }

  lemma LocalMoveInv(r: Reader, l: Link, step: Step)
    requires Sound(r) && LinkInv(l) && LocalEnabled(r, l, step)
    ensures LinkInv(LocalMove(r, l, step)) && SameRecord(l, LocalMove(r, l, step))
  {
    match step {
      case ClientStep(_) =>
        HeadReads(r, l);
        ReactsInv(l);
      case ExecStep(_) => ExecMoveInv(l);
      case UpDeliver(_) => UpDeliverInv(r, l, step);
      case DownDeliver(_) => DownDeliverInv(r, l, step);
      case SessionWake(_) => SessionFlagInv(r, l, step);
      case ReadError(_) => SessionFlagInv(r, l, step);
      case Release(_) => SessionFlagInv(r, l, step);
      case ClientWake(_) => ClientFlagInv(r, l, step);
      case Crash(_) => ClientFlagInv(r, l, step);
      case _ =>
    }
  }

  lemma TellComing(l: Link)
    ensures Coming(Tell(l)) == Coming(l) + [NotifyAppDied(l.session.slotId)] && Pending(Tell(l)) == Pending(l)
  {
  }

  // A session that carries a slot has been told of one, or its launcher has been granted it.
  lemma TellPhase(l: Link)
    requires LaunchInv(l) && l.session.slotId > -1
    ensures LaunchInv(Tell(l))
  {
    TellComing(l);
    if |l.sent| == 1 {
      assert l.handled != 0;
      assert Checking(Tell(l));
    } else if |l.sent| == 2 {
      assert l.granted.Some?;
      assert Requesting(Tell(l));
    } else {
      assert Holding(Tell(l));
    }
  }

  lemma TellQueues(l: Link)
    requires QueuesInv(l)
    ensures QueuesInv(Tell(l))
  {
    TellComing(l);
    assert Nameless(NotifyAppDied(l.session.slotId));
  }

  lemma TellInv(l: Link)
    requires LinkInv(l) && l.session.slotId > -1
    ensures LinkInv(Tell(l)) && SameRecord(l, Tell(l))
  {
    assert l.client.mode == Launch;
    TellQueues(l);
    TellPhase(l);
  }

  lemma FreshInv(mode: Mode, appname: string, pkgname: string, activity: string)
    ensures LinkInv(Fresh(mode, appname, pkgname, activity))
  {
  }

  /* ---- The session's answers ---- */

  // The message a session handles is the first of the launcher's that it has not handled yet.
  lemma NextMessage(l: Link)
    requires LinkInv(l) && l.session.looping && l.session.inbox != []
    ensures l.handled < |l.sent| && l.session.inbox[0] == l.sent[l.handled]
    ensures l.client.mode == Launch ==> l.handled < 4
    ensures l.client.mode == Launch && l.handled >= 2 ==> Outstanding(l)
  {
    assert Pending(l)[0] == l.session.inbox[0];
  }

  lemma AnsweredQueues(l: Link, o: Outcome)
    requires QueuesInv(l) && l.session.inbox != []
    requires IsInt32(o.slotId) && forall k :: 0 <= k < |o.replies| ==> Nameless(o.replies[k])
    requires Grant(o.replies).Some? ==> IsInt32(Grant(o.replies).value)
    ensures QueuesInv(Answered(l, o)) && Coming(Answered(l, o)) == Coming(l) + o.replies
  {
    var l' := Answered(l, o);
    assert Pending(l)[0] == l.session.inbox[0];
    assert Pending(l') == Pending(l)[1..];
    assert Coming(l') == Coming(l) + o.replies;
  }

  // Session `l` takes a message of this type as `e`.
  predicate Takes(l: Link, e: Event) {
    LinkInv(l) && l.session.looping && l.session.inbox != [] && Alike(e, l.session.inbox[0])
  }

  /* What the handlers do, ... */

  predicate CheckOutcome(slotId: int, o: Outcome) {
    || (o.slotId >= 0 && IsInt32(o.slotId) && o.replies == [ResCheck(o.slotId)])
    || (o.slotId == slotId && (o.replies == [ResCheck(-1)] || o.replies == [ResNotAvailable]))
  }

  predicate RequestOutcome(slotId: int, o: Outcome) {
    || (o.slotId >= 0 && IsInt32(o.slotId) && o.replies == [ResIdleSlot(o.slotId)])
    || (o.slotId == slotId && o.replies == [ResNotAvailable])
  }

  lemma CheckOutcomes(running: bool, slotId: int, slots: seq<Slot>, e: Event)
    requires e.ReqCheck? && |slots| < MAX_SLOTS
    ensures CheckOutcome(slotId, Handle(running, slotId, slots, e))
  {
  }

  lemma RequestOutcomes(running: bool, slotId: int, slots: seq<Slot>, e: Event)
    requires e.ReqGetIdle? && |slots| < MAX_SLOTS
    ensures RequestOutcome(slotId, Handle(running, slotId, slots, e))
  {
  }

  lemma QuietOutcomes(running: bool, slotId: int, slots: seq<Slot>, e: Event)
    requires (e.ReqSetBundle? || e.NotifyClosed?) && |slots| < MAX_SLOTS && IsInt32(slotId)
    ensures var o := Handle(running, slotId, slots, e);
            o.replies == [] && IsInt32(o.slotId) && (slotId > -1 ==> o.slotId > -1) && (e.NotifyClosed? ==> !o.running)
  {
  }

  lemma CloserOutcomes(running: bool, slotId: int, slots: seq<Slot>, e: Event)
    requires e.ReqCloseByName? || e.ReqCloseLastOpened?
    ensures var o := Handle(running, slotId, slots, e);
            && o.slotId == slotId
            && (o.replies == [] || (e.ReqCloseByName? && o.replies == [NotifyCloseByNameNotified]))
  {
  }

  /* ... and that the launcher's phase goes along with it. */

  predicate CanAnswer(l: Link) { LinkInv(l) && l.session.looping && l.session.inbox != [] }

  lemma CheckReplied(l: Link, l': Link, o: Outcome)
    requires l'.handled == 1 && l'.session.slotId == o.slotId && Coming(l') == [] + o.replies
    requires Waiting(l'.client) && l.session.slotId == -1 && CheckOutcome(l.session.slotId, o)
    ensures Checking(l')
  {
    assert Coming(l') == o.replies;
  }

  lemma CheckingAnswered(l: Link, o: Outcome)
    requires CanAnswer(l) && l.client.mode == Launch && l.handled == 0 && CheckOutcome(l.session.slotId, o)
    ensures LinkInv(Answered(l, o)) && Answered(l, o).granted == None
  {
    NextMessage(l);
    assert |l.sent| == 1 && Coming(l) == [];
    AnsweredQueues(l, o);
    CheckReplied(l, Answered(l, o), o);
  }

  lemma RequestingAnswered(l: Link, o: Outcome)
    requires CanAnswer(l) && l.client.mode == Launch && l.handled == 1 && RequestOutcome(l.session.slotId, o)
    ensures LinkInv(Answered(l, o)) && Answered(l, o).granted == Grant(o.replies)
  {
    NextMessage(l);
    assert |l.sent| == 2 && Coming(l) == [];
    AnsweredQueues(l, o);
    assert Coming(Answered(l, o)) == o.replies;
    assert Requesting(Answered(l, o));
  }

  lemma HoldingAnswered(l: Link, o: Outcome)
    requires CanAnswer(l) && l.client.mode == Launch && l.handled >= 2
    requires o.replies == [] && IsInt32(o.slotId) && o.slotId > -1 && (l.handled == 3 ==> !o.running)
    ensures LinkInv(Answered(l, o)) && Answered(l, o).granted == l.granted
  {
    NextMessage(l);
    assert |l.sent| >= 3;
    AnsweredQueues(l, o);
    assert Coming(Answered(l, o)) == Coming(l);
    assert Holding(Answered(l, o));
  }

  lemma CloserAnswered(l: Link, o: Outcome)
    requires CanAnswer(l) && l.client.mode != Launch && o.slotId == l.session.slotId
    requires o.replies == [] || (l.client.mode == CloseByName && o.replies == [NotifyCloseByNameNotified])
    ensures LinkInv(Answered(l, o)) && Answered(l, o).granted == None
  {
    NextMessage(l);
    assert l.handled == 0 && Coming(l) == [];
    AnsweredQueues(l, o);
    assert Coming(Answered(l, o)) == o.replies;
  }

  // What the session of a launch reads depends on how many messages it has handled.
  lemma LaunchMessage(l: Link, e: Event)
    requires Takes(l, e) && l.client.mode == Launch
    ensures l.handled == 0 ==> e.ReqCheck?
    ensures l.handled == 1 ==> e.ReqGetIdle?
    ensures l.handled == 2 ==> e.ReqSetBundle?
    ensures l.handled >= 3 ==> l.granted.Some? && e == NotifyClosed(l.granted.value)
    ensures l.handled >= 2 ==> l.session.slotId > -1
  {
    NextMessage(l);
  }

  lemma CloserMessage(l: Link, e: Event)
    requires Takes(l, e) && l.client.mode != Launch
    ensures if l.client.mode == CloseByName then e.ReqCloseByName? else e.ReqCloseLastOpened?
  {
    NextMessage(l);
  }
}
