// The launch protocol has no livelock: every step uses up some of a finite budget that only a new
// connection can raise.

module ProtocolProgress {
  import opened Wrappers
  import opened Events
  import opened Slots
  import opened VatSession
  import opened LGLauncher
  import opened Protocol
  import opened ProtocolInvariant

  // What an event in a session's queue can still cause, itself included; an event waiting in the
  // socket costs one more.
  function AtSession(e: Event): nat {
    match e
    case ReqCheck(_, _) => 15
    case ReqGetIdle(_, _) => 11
    case ReqCloseByName(_) => 8
    case _ => 1
  }

  function AtClient(e: Event): nat {
    match e
    case ResCheck(_) => 13
    case ResIdleSlot(_) => 9
    case NotifyAppDied(_) => 3
    case _ => 1
  }

  const AT_DAEMON := 5

  function AtViewer(exec: Exec): nat {
    match exec
    case NotStarted => 0
    case Loading => 6
    case Exited => 5
    case Sending => 4
    case Ending => 1
    case Done => 0
  }

  function SessionCost(q: seq<Event>): nat {
    if q == [] then 0 else AtSession(q[0]) + SessionCost(q[1..])
  }

  function ClientCost(q: seq<Event>): nat {
    if q == [] then 0 else AtClient(q[0]) + ClientCost(q[1..])
  }

  lemma {:induction false} SessionCostAppend(a: seq<Event>, b: seq<Event>)
    ensures SessionCost(a + b) == SessionCost(a) + SessionCost(b)
  {
    if a == [] {
      assert a + b == b;
    } else {
      assert (a + b)[1..] == a[1..] + b;
      SessionCostAppend(a[1..], b);
    }
  }

  lemma {:induction false} ClientCostAppend(a: seq<Event>, b: seq<Event>)
    ensures ClientCost(a + b) == ClientCost(a) + ClientCost(b)
  {
    if a == [] {
      assert a + b == b;
    } else {
      assert (a + b)[1..] == a[1..] + b;
      ClientCostAppend(a[1..], b);
    }
  }

  function One(b: bool): nat { if b then 1 else 0 }

  function SessionBudget(s: Session): nat {
    One(s.running) + One(s.looping) + One(s.registered) + SessionCost(s.inbox)
  }

  function ClientBudget(c: Client): nat {
    One(c.looping) + One(c.alive) + AtViewer(c.exec) + ClientCost(c.inbox)
  }

  function LinkBudget(l: Link): nat {
    SessionBudget(l.session) + ClientBudget(l.client)
    + SessionCost(l.up) + |l.up| + ClientCost(l.down) + |l.down|
  }

  function LinksBudget(links: seq<Link>): nat {
    if links == [] then 0 else LinksBudget(links[..|links| - 1]) + LinkBudget(links[|links| - 1])
  }

  function Budget(s: State): nat {
    LinksBudget(s.links) + AT_DAEMON * |s.global|
  }

  lemma {:induction false} LinksBudgetUpdate(links: seq<Link>, i: nat, l: Link)
    requires i < |links|
    ensures LinksBudget(links[i := l]) == LinksBudget(links) - LinkBudget(links[i]) + LinkBudget(l)
  {
    var n := |links| - 1;
    if i == n {
      assert links[i := l][..n] == links[..n];
    } else {
      assert links[i := l][..n] == links[..n][i := l];
      LinksBudgetUpdate(links[..n], i, l);
    }
  }

  lemma ReactSpends(c: Launcher, e: Event)
    ensures var n := React(c, e);
            SessionCost(n.sends) + |n.sends|
            + (if n.next.threadCreated && !c.threadCreated then AtViewer(Loading) else 0)
            < AtClient(e)
  {
    var n := React(c, e);
    if n.sends != [] {
      assert n.sends[1..] == [];
    }
  }

  lemma SameKindCosts(e: Event, m: Event)
    requires Kind(e) == Kind(m)
    ensures AtSession(e) == AtSession(m) && AtClient(e) == AtClient(m)
  {
  }

  lemma ReactsSpends(l: Link, e: Event)
    requires CanReact(l) && Kind(e) == Kind(l.client.inbox[0])
    ensures LinkBudget(Reacts(l, e)) < LinkBudget(l)
  {
    SessionCostAppend(l.up, React(l.client.core, e).sends);
    ReactSpends(l.client.core, e);
    SameKindCosts(e, l.client.inbox[0]);
    assert ClientCost(l.client.inbox) == AtClient(l.client.inbox[0]) + ClientCost(l.client.inbox[1..]);
  }

  lemma ExecMoveSpends(l: Link)
    requires l.client.exec != NotStarted && l.client.exec != Done
    ensures LinkBudget(ExecMove(l)) < LinkBudget(l)
  {
    var close := [CloseReport(l.client.core)];
    SessionCostAppend(l.up, close);
    assert close[1..] == [] && SessionCost(close) == 1;
  }

  lemma LocalMoveSpends(r: Reader, l: Link, step: Step)
    requires Sound(r) && LocalEnabled(r, l, step)
    ensures LinkBudget(LocalMove(r, l, step)) < LinkBudget(l)
  {
    match step {
      case ClientStep(_) => ReactsSpends(l, r(l.client.inbox[0], "").value);
      case ExecStep(_) => ExecMoveSpends(l);
      case UpDeliver(_) => SessionCostAppend(l.session.inbox, [l.up[0]]);
      case DownDeliver(_) => ClientCostAppend(l.client.inbox, [l.down[0]]);
      case _ =>
    }
  }

  lemma RepliesCost(running: bool, slotId: int, slots: seq<Slot>, e: Event)
    ensures var o := Handle(running, slotId, slots, e);
            && ClientCost(o.replies) + |o.replies| + AT_DAEMON * |o.globals| < AtSession(e)
            && (o.running ==> running)
  {
    var o := Handle(running, slotId, slots, e);
    if o.replies != [] {
      assert o.replies[1..] == [];
    }
  }

  lemma AnswerSpends(l: Link, slots: seq<Slot>, e: Event)
    requires l.session.looping && l.session.inbox != [] && Kind(e) == Kind(l.session.inbox[0])
    ensures var o := Answer(l, slots, e);
            LinkBudget(Answered(l, o)) + AT_DAEMON * |o.globals| < LinkBudget(l)
  {
    RepliesCost(l.session.running, l.session.slotId, slots, e);
    SameKindCosts(e, l.session.inbox[0]);
    AnsweredSpends(l, Answer(l, slots, e));
  }

  lemma AnsweredSpends(l: Link, o: Outcome)
    requires l.session.looping && l.session.inbox != [] && (o.running ==> l.session.running)
    requires ClientCost(o.replies) + |o.replies| + AT_DAEMON * |o.globals| < AtSession(l.session.inbox[0])
    ensures LinkBudget(Answered(l, o)) + AT_DAEMON * |o.globals| < LinkBudget(l)
  {
    ClientCostAppend(l.down, o.replies);
    assert SessionCost(l.session.inbox) == AtSession(l.session.inbox[0]) + SessionCost(l.session.inbox[1..]);
  }

  lemma TellSpends(l: Link)
    ensures LinkBudget(Tell(l)) < LinkBudget(l) + AT_DAEMON
  {
    ClientCostAppend(l.down, [NotifyAppDied(l.session.slotId)]);
  }

  lemma ConnectBudget(links: seq<Link>, mode: Mode, appname: string, pkgname: string, activity: string)
    ensures LinksBudget(links + [Fresh(mode, appname, pkgname, activity)]) <= LinksBudget(links) + 21
  {
    var l := Fresh(mode, appname, pkgname, activity);
    assert (links + [l])[..|links|] == links;
    assert l.up[1..] == [] && SessionCost(l.up) == AtSession(l.up[0]) <= 15;
  }

  lemma SessionSpends(s: State, i: nat, e: Event)
    requires i < |s.links| && s.links[i].session.looping && s.links[i].session.inbox != []
    requires Kind(e) == Kind(s.links[i].session.inbox[0])
    ensures Budget(SessionMove(s, i, e)) < Budget(s)
  {
    AnswerSpends(s.links[i], s.slots, e);
    LinksBudgetUpdate(s.links, i, Answered(s.links[i], Answer(s.links[i], s.slots, e)));
  }

  lemma GlobalSpends(s: State, told: Option<nat>)
    requires s.global != [] && (told.Some? ==> told.value < |s.links|)
    ensures Budget(GlobalMove(s, told)) < Budget(s)
  {
    if told.Some? {
      TellSpends(s.links[told.value]);
      LinksBudgetUpdate(s.links, told.value, Tell(s.links[told.value]));
    }
  }

  // No step is free: a connection brings 21 more at most, any other step leaves less than before.
  lemma StepSpends(r: Reader, s: State, step: Step)
    requires Sound(r) && Enabled(r, s, step)
    ensures Budget(Apply(r, s, step)) < Budget(s) + (if step.Connect? then 22 else 0)
  {
    match step {
      case Connect(mode, appname, pkgname, activity) => ConnectBudget(s.links, mode, appname, pkgname, activity);
      case SessionStep(i) => SessionSpends(s, i, Heard(r, s.links[i]));
      case GlobalStep(told) => GlobalSpends(s, told);
      case _ =>
        LocalMoveSpends(r, s.links[step.i], step);
        LinksBudgetUpdate(s.links, step.i, LocalMove(r, s.links[step.i], step));
    }
  }

  function Connects(steps: seq<Step>): nat {
    if steps == [] then 0 else One(steps[0].Connect?) + Connects(steps[1..])
  }

  lemma {:induction false} RunSpends(r: Reader, s: State, steps: seq<Step>)
    requires Sound(r) && CanRun(r, s, steps)
    ensures |steps| + Budget(Run(r, s, steps)) <= Budget(s) + 22 * Connects(steps)
    decreases |steps|
  {
    if steps != [] {
      StepSpends(r, s, steps[0]);
      RunSpends(r, Apply(r, s, steps[0]), steps[1..]);
    }
  }

  // A run of the daemon has at most 22 steps for each connection made in it, closing by name,
  // crashes and lost connections included; without new connections every run comes to an end.
  lemma NoLivelock(r: Reader, n: nat, steps: seq<Step>)
    requires Sound(r) && CanRun(r, Init(n), steps)
    ensures |steps| <= 22 * Connects(steps)
  {
    RunSpends(r, Init(n), steps);
  }
}
