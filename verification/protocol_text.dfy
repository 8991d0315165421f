// The launch protocol on texts: the receivers read what `W.Received` makes of a message, which for some
// names is not what was sent. Here: that they are sound readers, and names for which nothing is misread.

module ProtocolText {
  import opened Wrappers
  import opened Events
  import opened Slots
  import opened Text
  import opened Numerals
  import opened VatSession
  import opened LGLauncher
  import opened Protocol
  import opened WireExact
  import I = ProtocolInvariant
  import S = ProtocolSafety
  import Table = ProtocolTable
  import W = Wire

  /* ---- Texts are a sound way of sending ---- */

  lemma NumbersAreKinds(e: Event)
    ensures W.Number(e) == Kind(e)
  {
  }

  lemma NamelessArrives(m: Event, pkgname: string)
    requires I.Nameless(m)
    ensures W.Received(m, pkgname) == Some(m)
  {
    W.ReceivedAsSent(m, pkgname);
  }

  // Whatever names a message carries, its receiver reads its type; a message without names is read as it
  // was sent. So all that is proved of sound readers holds of the protocol on texts.
  lemma TextsAreSound()
    ensures I.Sound(W.Received)
  {
    forall m, p | W.Received(m, p).Some? ensures I.Alike(W.Received(m, p).value, m) {
      TypeIsKept(m, p);
      NumbersAreKinds(m);
      NumbersAreKinds(W.Received(m, p).value);
      if I.Nameless(m) {
        NamelessArrives(m, p);
      }
    }
    forall m, p | I.Nameless(m) ensures W.Received(m, p) == Some(m) {
      NamelessArrives(m, p);
    }
  }

  /* ---- Names that fit a table of `n` slots ---- */

  // Every message a launch with these names can cause arrives: CHECK and GET_IDLE, and SET_BUNDLE for
  // whichever slot is granted.
  predicate LaunchFits(appname: string, activity: string, n: nat) {
    && '\0' !in appname && '\0' !in activity
    && NamesArrivable(appname, activity)
    && forall g :: 0 <= g < n ==> BundleArrivable(appname, activity, g)
  }

  // The same for a request to close: itself, and the global close for whichever slot is found or none.
  predicate CloserFits(appname: string, pkgname: string, n: nat) {
    && '\0' !in appname && '\0' !in pkgname
    && RequestArrivable(appname, pkgname)
    && forall g :: -1 <= g < n ==> CloseArrivable(appname, g)
  }

  predicate ConnectFits(step: Step, n: nat) {
    match step
    case Connect(Launch, appname, _, activity) => LaunchFits(appname, activity, n)
    case Connect(CloseByName, appname, pkgname, _) => CloserFits(appname, pkgname, n)
    case _ => true
  }

  predicate Fitting(steps: seq<Step>, n: nat) {
    forall k :: 0 <= k < |steps| ==> ConnectFits(steps[k], n)
  }

  // Names as one would have them: no delimiters, no key, and short enough.
  lemma PlainNamesFit(appname: string, activity: string, n: nat)
    requires W.Plain(appname) && W.Plain(activity) && !Contains(appname, W.ACTIVITY)
    requires !Contains(appname, W.LG_INSTANCE_ID) && !Contains(activity, W.LG_INSTANCE_ID)
    requires |appname| + |activity| <= 206 && n < I.MAX_SLOTS
    ensures LaunchFits(appname, activity, n)
  {
    NamesReceivedExactly(ReqCheck(appname, activity), "");
    W.ReceivedAsSent(ReqCheck(appname, activity), "");
    forall g | 0 <= g < n ensures BundleArrivable(appname, activity, g) {
      Int32Length(g);
      BundleReceivedExactly(ReqSetBundle(appname, activity, g), "");
      W.ReceivedAsSent(ReqSetBundle(appname, activity, g), "");
    }
  }

  lemma PlainRequestFits(appname: string, pkgname: string, n: nat)
    requires W.Plain(appname) && W.Plain(pkgname) && !Contains(appname, W.LG_INSTANCE_ID)
    requires |appname| + |pkgname| <= 234 && |appname| <= 216 && n < I.MAX_SLOTS
    ensures CloserFits(appname, pkgname, n)
  {
    RequestReceivedExactly(ReqCloseByName(appname), pkgname);
    W.ReceivedAsSent(ReqCloseByName(appname), pkgname);
    forall g | -1 <= g < n ensures CloseArrivable(appname, g) {
      Int32Length(g);
      CloseReceivedExactly(NotifyCloseByName(appname, g), "");
      W.ReceivedAsSent(NotifyCloseByName(appname, g), "");
    }
  }

  // The bundle of a fitting launch never strays and is never read as one below the table.
  lemma FittingIsStraight(appname: string, pkgname: string, activity: string, n: nat)
    requires LaunchFits(appname, activity, n) && n < I.MAX_SLOTS
    ensures Table.NeverStrays(W.Received, Table.Names(appname, pkgname, activity), n)
    ensures Table.NeverBelow(W.Received, Table.Names(appname, pkgname, activity), n)
  {
    forall g | 0 <= g < n
      ensures Table.BundleRead(W.Received, Table.Names(appname, pkgname, activity), g)
           == Some(ReqSetBundle(appname, activity, g))
    {
      BundleReceivedExactly(ReqSetBundle(appname, activity, g), pkgname);
    }
  }

  /* ---- All messages of such runs fit ---- */

  predicate InRange(id: int, n: nat) { -1 <= id < n || id == 0 }

  predicate ClientFits(c: Client, n: nat) {
    && (c.mode == Launch ==> LaunchFits(c.core.appname, c.core.activity, n))
    && (c.mode == CloseByName ==> CloserFits(c.core.appname, c.core.pkgname, n))
    && (c.core.instanceId.Some? ==> InRange(c.core.instanceId.value, n))
  }

  predicate UpFits(e: Event, c: Client, n: nat) {
    match e
    case ReqCheck(appname, activity) => c.mode == Launch && appname == c.core.appname && activity == c.core.activity
    case ReqGetIdle(appname, activity) => c.mode == Launch && appname == c.core.appname && activity == c.core.activity
    case ReqSetBundle(appname, activity, id) =>
      c.mode == Launch && appname == c.core.appname && activity == c.core.activity && 0 <= id < n
    case ReqCloseByName(appname) => c.mode == CloseByName && appname == c.core.appname
    case NotifyClosed(id) => InRange(id, n)
    case ReqCloseLastOpened => true
    case _ => false
  }

  predicate DownFits(e: Event, mode: Mode, n: nat) {
    match e
    case ResCheck(id) => mode == Launch && -1 <= id < n
    case ResIdleSlot(id) => mode == Launch && 0 <= id < n
    case NotifyAppDied(id) => -1 <= id < n
    case ResNotAvailable => true
    case NotifyCloseByNameNotified => true
    case _ => false
  }

  predicate GlobalFits(e: Event, n: nat) {
    e.NotifyCloseByName? && '\0' !in e.appname && -1 <= e.id < n && CloseArrivable(e.appname, e.id)
  }

  predicate AllUp(q: seq<Event>, c: Client, n: nat) { forall e :: e in q ==> UpFits(e, c, n) }
  predicate AllDown(q: seq<Event>, mode: Mode, n: nat) { forall e :: e in q ==> DownFits(e, mode, n) }

  predicate LinkFits(l: Link, n: nat) {
    && ClientFits(l.client, n)
    && -1 <= l.session.slotId < n
    && AllUp(l.sent, l.client, n) && AllUp(l.up, l.client, n) && AllUp(l.session.inbox, l.client, n)
    && AllDown(l.down, l.client.mode, n) && AllDown(l.client.inbox, l.client.mode, n)
  }

  ghost predicate TextInv(s: State, n: nat) {
    && |s.slots| == n < I.MAX_SLOTS
    && (forall i :: 0 <= i < |s.links| ==> LinkFits(s.links[i], n))
    && (forall e :: e in s.global ==> GlobalFits(e, n))
  }

  /* Fitting messages are received as sent. */

  lemma UpArrives(e: Event, c: Client, n: nat)
    requires UpFits(e, c, n) && ClientFits(c, n) && n < I.MAX_SLOTS
    ensures W.Received(e, c.core.pkgname) == Some(e) && Int32Fields(e) && CStrings(e, c.core.pkgname)
  {
    ReceivedExactly(e, c.core.pkgname);
  }

  lemma DownArrives(e: Event, mode: Mode, n: nat)
    requires DownFits(e, mode, n) && n < I.MAX_SLOTS
    ensures W.Received(e, "") == Some(e) && Int32Fields(e) && CStrings(e, "")
  {
    ReceivedExactly(e, "");
  }

  lemma GlobalArrives(e: Event, n: nat)
    requires GlobalFits(e, n) && n < I.MAX_SLOTS
    ensures W.Received(e, "") == Some(e) && Int32Fields(e) && CStrings(e, "")
  {
    ReceivedExactly(e, "");
  }

  // Every message on its way is received as it was sent.
  ghost predicate AllAsSent(r: Reader, s: State) {
    && (forall i, e :: 0 <= i < |s.links| && e in I.Pending(s.links[i])
          ==> r(e, s.links[i].client.core.pkgname) == Some(e))
    && (forall i, e :: 0 <= i < |s.links| && e in I.Coming(s.links[i]) ==> r(e, "") == Some(e))
    && (forall e :: e in s.global ==> r(e, "") == Some(e))
  }

  lemma PendingFits(l: Link, n: nat, e: Event)
    requires LinkFits(l, n) && n < I.MAX_SLOTS && e in I.Pending(l)
    ensures W.Received(e, l.client.core.pkgname) == Some(e)
  {
    UpArrives(e, l.client, n);
  }

  lemma ComingFits(l: Link, n: nat, e: Event)
    requires LinkFits(l, n) && n < I.MAX_SLOTS && e in I.Coming(l)
    ensures W.Received(e, "") == Some(e)
  {
    DownArrives(e, l.client.mode, n);
  }

  lemma AllFitsArrive(s: State, n: nat)
    requires TextInv(s, n)
    ensures AllAsSent(W.Received, s)
  {
    forall i, e | 0 <= i < |s.links| && e in I.Pending(s.links[i])
      ensures W.Received(e, s.links[i].client.core.pkgname) == Some(e)
    {
      PendingFits(s.links[i], n, e);
    }
    forall i, e | 0 <= i < |s.links| && e in I.Coming(s.links[i]) ensures W.Received(e, "") == Some(e) {
      ComingFits(s.links[i], n, e);
    }
    forall e | e in s.global ensures W.Received(e, "") == Some(e) {
      GlobalArrives(e, n);
    }
  }

  /* Every step keeps them fitting. */

  // The reader to whom every message comes as it was sent.
  function AsSent(m: Event, pkgname: string): Option<Event> { Some(m) }

  lemma InBehind(q: seq<Event>)
    requires q != []
    ensures forall e :: e in q[1..] ==> e in q
  {
  }

  lemma ReactFits(c: Client, n: nat)
    requires ClientFits(c, n) && c.inbox != [] && DownFits(c.inbox[0], c.mode, n)
    ensures var r := React(c.core, c.inbox[0]);
            && ClientFits(c.(core := r.next), n) && AllUp(r.sends, c.(core := r.next), n)
            && r.next.appname == c.core.appname && r.next.pkgname == c.core.pkgname
            && r.next.activity == c.core.activity
  {
    var r := React(c.core, c.inbox[0]);
    forall m | m in r.sends ensures UpFits(m, c.(core := r.next), n) {
      assert m == r.sends[0];
    }
  }

  // What fits one launcher fits another with the same names.
  lemma AllUpSame(q: seq<Event>, c: Client, c': Client, n: nat)
    requires AllUp(q, c, n) && c'.mode == c.mode
    requires c'.core.appname == c.core.appname && c'.core.activity == c.core.activity
    ensures AllUp(q, c', n)
  {
  }

  lemma SendFits(l: Link, client: Client, messages: seq<Event>, n: nat)
    requires LinkFits(l, n) && ClientFits(client, n) && client.mode == l.client.mode && AllUp(messages, client, n)
    requires client.core.appname == l.client.core.appname && client.core.activity == l.client.core.activity
    requires AllDown(client.inbox, client.mode, n)
    ensures LinkFits(Send(l, client, messages), n)
  {
    AllUpSame(l.sent, l.client, client, n);
    AllUpSame(l.up, l.client, client, n);
    AllUpSame(l.session.inbox, l.client, client, n);
  }

  lemma ReactsFits(l: Link, n: nat)
    requires LinkFits(l, n) && l.client.inbox != []
    ensures LinkFits(Reacts(l, l.client.inbox[0]), n)
  {
    var c, l' := l.client, Reacts(l, l.client.inbox[0]);
    assert DownFits(c.inbox[0], c.mode, n);
    ReactFits(c, n);
    InBehind(c.inbox);
    var sends := React(c.core, c.inbox[0]).sends;
    AllUpSame(sends, c.(core := l'.client.core), l'.client, n);
    SendFits(l, l'.client, sends, n);
  }

  lemma ExecMoveFits(l: Link, n: nat)
    requires LinkFits(l, n)
    ensures LinkFits(ExecMove(l), n)
  {
    var l' := ExecMove(l);
    var messages := if l.client.exec == Sending then [CloseReport(l.client.core)] else [];
    assert UpFits(CloseReport(l.client.core), l'.client, n);
    SendFits(l, l'.client, messages, n);
    assert l' == Send(l, l'.client, messages);
  }

  lemma DeliverFits(l: Link, step: Step, n: nat)
    requires LinkFits(l, n) && LocalEnabled(AsSent, l, step) && (step.UpDeliver? || step.DownDeliver?)
    ensures LinkFits(LocalMove(AsSent, l, step), n)
  {
    if step.UpDeliver? {
      InBehind(l.up);
    } else {
      InBehind(l.down);
    }
  }

  lemma LocalMoveFits(l: Link, step: Step, n: nat)
    requires LinkFits(l, n) && LocalEnabled(AsSent, l, step)
    ensures LinkFits(LocalMove(AsSent, l, step), n)
  {
    if step.ClientStep? {
      ReactsFits(l, n);
    } else if step.ExecStep? {
      ExecMoveFits(l, n);
    } else if step.UpDeliver? || step.DownDeliver? {
      DeliverFits(l, step, n);
    }
  }

  lemma HandleFits(running: bool, slotId: int, slots: seq<Slot>, e: Event, c: Client, n: nat)
    requires UpFits(e, c, n) && ClientFits(c, n) && |slots| == n && -1 <= slotId < n
    ensures var o := Handle(running, slotId, slots, e);
            && |o.slots| == n && -1 <= o.slotId < n
            && AllDown(o.replies, c.mode, n)
            && (forall m :: m in o.globals ==> GlobalFits(m, n))
  {
  }

  // One connection is replaced and the global queue is another; both fit.
  lemma ReplaceFits(s: State, t: State, i: nat, n: nat)
    requires TextInv(s, n) && i < |s.links| == |t.links| && t.links == s.links[i := t.links[i]]
    requires LinkFits(t.links[i], n) && |t.slots| == n && forall e :: e in t.global ==> GlobalFits(e, n)
    ensures TextInv(t, n)
  {
    assert forall j :: 0 <= j < |s.links| && j != i ==> t.links[j] == s.links[j];
  }

  lemma AnsweredFits(l: Link, slots: seq<Slot>, n: nat)
    requires LinkFits(l, n) && l.session.inbox != [] && |slots| == n
    ensures var o := Answer(l, slots, l.session.inbox[0]);
            LinkFits(Answered(l, o), n) && |o.slots| == n && forall m :: m in o.globals ==> GlobalFits(m, n)
  {
    var e := l.session.inbox[0];
    assert UpFits(e, l.client, n);
    HandleFits(l.session.running, l.session.slotId, slots, e, l.client, n);
    InBehind(l.session.inbox);
  }

  lemma SessionMoveFits(s: State, i: nat, n: nat)
    requires TextInv(s, n) && i < |s.links| && s.links[i].session.inbox != []
    ensures TextInv(SessionMove(s, i, s.links[i].session.inbox[0]), n)
  {
    AnsweredFits(s.links[i], s.slots, n);
    ReplaceFits(s, SessionMove(s, i, s.links[i].session.inbox[0]), i, n);
  }

  lemma TellFits(s: State, told: Option<nat>, n: nat)
    requires TextInv(s, n) && s.global != [] && (told.Some? ==> told.value < |s.links|)
    ensures TextInv(GlobalMove(s, told), n)
  {
    InBehind(s.global);
    if told.Some? {
      assert LinkFits(Tell(s.links[told.value]), n);
      ReplaceFits(s, GlobalMove(s, told), told.value, n);
    }
  }

  lemma ConnectKeepsFit(s: State, step: Step, n: nat)
    requires TextInv(s, n) && step.Connect? && ConnectFits(step, n)
    ensures TextInv(Apply(AsSent, s, step), n)
  {
    assert LinkFits(Fresh(step.mode, step.appname, step.pkgname, step.activity), n);
  }

  lemma LocalStepFits(s: State, step: Step, n: nat)
    requires TextInv(s, n) && S.IsLocal(step) && Enabled(AsSent, s, step)
    ensures TextInv(Apply(AsSent, s, step), n)
  {
    LocalMoveFits(s.links[step.i], step, n);
    ReplaceFits(s, Apply(AsSent, s, step), step.i, n);
  }

  lemma StepFits(s: State, step: Step, n: nat)
    requires TextInv(s, n) && Enabled(AsSent, s, step) && ConnectFits(step, n)
    ensures TextInv(Apply(AsSent, s, step), n)
  {
    match step {
      case Connect(_, _, _, _) => ConnectKeepsFit(s, step, n);
      case SessionStep(i) => SessionMoveFits(s, i, n);
      case GlobalStep(told) => TellFits(s, told, n);
      case _ => LocalStepFits(s, step, n);
    }
  }

  /* ---- Runs on texts are runs in which nothing is misread ---- */

  lemma HeadsAsSent(r: Reader, s: State, i: nat)
    requires AllAsSent(r, s) && i < |s.links|
    ensures var l := s.links[i];
            && (l.session.inbox != [] ==> r(l.session.inbox[0], l.client.core.pkgname) == Some(l.session.inbox[0]))
            && (l.client.inbox != [] ==> r(l.client.inbox[0], "") == Some(l.client.inbox[0]))
  {
    var l := s.links[i];
    assert l.session.inbox != [] ==> l.session.inbox[0] in I.Pending(l);
    assert l.client.inbox != [] ==> l.client.inbox[0] in I.Coming(l);
  }

  lemma LocalAsSent(r: Reader, l: Link, step: Step)
    requires S.IsLocal(step)
    requires l.client.inbox != [] ==> r(l.client.inbox[0], "") == Some(l.client.inbox[0])
    ensures LocalEnabled(r, l, step) <==> LocalEnabled(AsSent, l, step)
    ensures LocalEnabled(r, l, step) ==> LocalMove(r, l, step) == LocalMove(AsSent, l, step)
  {
  }

  // Where every message on its way comes as it was sent, so do the steps.
  lemma StepAsSent(r: Reader, s: State, step: Step)
    requires AllAsSent(r, s)
    ensures Enabled(r, s, step) <==> Enabled(AsSent, s, step)
    ensures Enabled(r, s, step) ==> Apply(r, s, step) == Apply(AsSent, s, step)
  {
    match step {
      case Connect(_, _, _, _) =>
      case SessionStep(i) =>
        if i < |s.links| {
          HeadsAsSent(r, s, i);
        }
      case GlobalStep(told) => GlobalAsSent(r, s, told);
      case _ =>
        if step.i < |s.links| {
          HeadsAsSent(r, s, step.i);
          LocalAsSent(r, s.links[step.i], step);
        }
    }
  }

  lemma GlobalAsSent(r: Reader, s: State, told: Option<nat>)
    requires AllAsSent(r, s)
    ensures GlobalEnabled(r, s, told) <==> GlobalEnabled(AsSent, s, told)
  {
    if s.global != [] {
      assert s.global[0] in s.global;
    }
  }

  lemma {:induction false} RunsAgree(s: State, steps: seq<Step>, n: nat)
    requires TextInv(s, n) && Fitting(steps, n)
    ensures CanRun(W.Received, s, steps) <==> CanRun(AsSent, s, steps)
    ensures CanRun(AsSent, s, steps) ==>
              Run(W.Received, s, steps) == Run(AsSent, s, steps) && TextInv(Run(AsSent, s, steps), n)
    decreases |steps|
  {
    if steps != [] {
      AllFitsArrive(s, n);
      StepAsSent(W.Received, s, steps[0]);
      assert ConnectFits(steps[0], n);
      if Enabled(AsSent, s, steps[0]) {
        StepFits(s, steps[0], n);
        RunsAgree(Apply(AsSent, s, steps[0]), steps[1..], n);
      }
    }
  }

  // With fitting names the protocol on texts has the runs, and reaches the states, that it would have if
  // every message were received as it was sent.
  lemma TextRunsAreRuns(n: nat, steps: seq<Step>)
    requires n < I.MAX_SLOTS && Fitting(steps, n)
    ensures CanRun(W.Received, Init(n), steps) <==> CanRun(AsSent, Init(n), steps)
    ensures CanRun(AsSent, Init(n), steps) ==>
              && Run(W.Received, Init(n), steps) == Run(AsSent, Init(n), steps)
              && TextInv(Run(AsSent, Init(n), steps), n)
  {
    RunsAgree(Init(n), steps, n);
  }

  // In such a run every message that is ever sent, in either direction or over the global queue, is
  // received as it was sent, whatever its frame held before.
  lemma EveryMessageArrives(n: nat, steps: seq<Step>, i: nat, e: Event, frame: string)
    requires n < I.MAX_SLOTS && Fitting(steps, n) && CanRun(W.Received, Init(n), steps)
    ensures var s := Run(W.Received, Init(n), steps);
            && (i < |s.links| && e in s.links[i].sent && W.Carries(frame, e, s.links[i].client.core.pkgname)
                ==> W.Receive(frame) == Some(e))
            && (i < |s.links| && e in s.links[i].down && W.Carries(frame, e, "") ==> W.Receive(frame) == Some(e))
            && (e in s.global && W.Carries(frame, e, "") ==> W.Receive(frame) == Some(e))
  {
    TextRunsAreRuns(n, steps);
    var s := Run(W.Received, Init(n), steps);
    if i < |s.links| && e in s.links[i].sent {
      UpArrives(e, s.links[i].client, n);
      FrameArrives(e, s.links[i].client.core.pkgname, frame);
    }
    if i < |s.links| && e in s.links[i].down {
      DownArrives(e, s.links[i].client.mode, n);
      FrameArrives(e, "", frame);
    }
    if e in s.global {
      GlobalArrives(e, n);
      FrameArrives(e, "", frame);
    }
  }

  lemma FrameArrives(e: Event, pkgname: string, frame: string)
    requires W.Received(e, pkgname) == Some(e) && Int32Fields(e) && CStrings(e, pkgname)
    ensures W.Carries(frame, e, pkgname) ==> W.Receive(frame) == Some(e)
  {
    if W.Carries(frame, e, pkgname) {
      PayloadHasNoNul(e, pkgname);
      W.FrameReceived(e, pkgname, frame);
    }
  }

  // And the promises about the table hold of it.
  lemma FittingRunIsStraight(n: nat, steps: seq<Step>)
    requires n < I.MAX_SLOTS && Fitting(steps, n) && CanRun(W.Received, Init(n), steps)
    ensures Table.StraightRun(W.Received, n, steps) && Table.AllLaunch(steps, Table.Above(W.Received, n))
  {
    TextsAreSound();
    forall k | 0 <= k < |steps| && steps[k].Connect? && steps[k].mode == Launch
      ensures var names := Table.Names(steps[k].appname, steps[k].pkgname, steps[k].activity);
              Table.NeverStrays(W.Received, names, n) && Table.NeverBelow(W.Received, names, n)
    {
      assert ConnectFits(steps[k], n);
      FittingIsStraight(steps[k].appname, steps[k].pkgname, steps[k].activity, n);
    }
  }
}
