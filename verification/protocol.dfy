// The launch protocol as a transition system: a daemon with any number of slots and any number of
// launchers, each on its own connection. A step is one handled event, one message moved from a
// socket into an event queue, one move of the viewer thread, or a connection coming or going.
// Every handler runs as one step; the source takes no lock on the table it shares.

module Protocol {
  import opened Wrappers
  import opened Events
  import opened Slots
  import S = VatSession
  import opened LGLauncher
  import D = Daemon

  // Where the viewer thread `execLG` stands. `killApp` tests `running` (Exited), sends (Sending),
  // and only then is `running` cleared (Ending).
  datatype Exec = NotStarted | Loading | Exited | Sending | Ending | Done

  // `looping`: the thread has passed the `while (running)` test and is not out of its loop yet.
  datatype Session = Session(running: bool, slotId: int, looping: bool, registered: bool, inbox: seq<Event>)

  datatype Client = Client(mode: Mode, core: Launcher, looping: bool, alive: bool, exec: Exec, inbox: seq<Event>)

  // One connection: both ends, the socket in each direction, and what has happened on it so far:
  // all messages the launcher sent, how many the session handled, the slot it was granted.
  datatype Link = Link(session: Session, client: Client, up: seq<Event>, down: seq<Event>,
                       sent: seq<Event>, handled: nat, granted: Option<nat>)

  // `owner`, `grants`, `closes` and `fault` record the past: who was last granted each slot and has
  // not closed it, how many slots were granted, how many closes were handled, and whether a handler
  // ever indexed the table below its start.
  datatype State = State(slots: seq<Slot>, links: seq<Link>, global: seq<Event>,
                         owner: seq<Option<nat>>, grants: nat, closes: nat, fault: bool)

  datatype Step =
    | Connect(mode: Mode, appname: string, pkgname: string, activity: string)
    | UpDeliver(i: nat)       // the daemon's main thread reads one message
    | SessionStep(i: nat)     // the session thread handles one event
    | SessionWake(i: nat)     // the session thread returns from DeQueue empty-handed and leaves
    | ReadError(i: nat)       // a read on the connection does not return a whole message
    | Release(i: nat)         // the main thread drops a stopped session
    | GlobalStep(told: Option<nat>)
    | DownDeliver(i: nat)
    | ClientStep(i: nat)
    | ClientWake(i: nat)
    | ExecStep(i: nat)
    | Crash(i: nat)

  // How a receiver reads an event that a launcher with this package name, or the daemon, has sent: the
  // reading of its text, or none when there is nothing defined to read. Queues hold messages as sent;
  // handlers read them.
  type Reader = (Event, string) -> Option<Event>

  function Init(n: nat): State {
    State(seq(n, _ => Slot(Idle, "", "")), [], [], seq(n, _ => None), 0, 0, false)
  }

  function Fresh(mode: Mode, appname: string, pkgname: string, activity: string): Link {
    var core := Started(appname, pkgname, activity);
    var opening := [Opening(mode, core)];
    Link(Session(true, -1, true, true, []), Client(mode, core, true, true, NotStarted, []),
         opening, [], opening, 0, None)
  }

  /* ---- Moves that concern one connection only ---- */

  predicate LocalEnabled(r: Reader, l: Link, step: Step) {
    match step
    case UpDeliver(_) => l.session.registered && l.up != []
    case SessionWake(_) => l.session.looping && !l.session.running
    case ReadError(_) => l.session.registered && l.session.running
    case Release(_) => l.session.registered && !l.session.running
    case DownDeliver(_) => l.client.alive && l.down != []
    case ClientStep(_) =>
      l.client.alive && l.client.looping && l.client.inbox != [] && r(l.client.inbox[0], "").Some?
    case ClientWake(_) => l.client.alive && l.client.looping && !l.client.core.running
    case ExecStep(_) => l.client.alive && l.client.exec != NotStarted && l.client.exec != Done
    case Crash(_) => l.client.alive
    case _ => false
  }

  function Send(l: Link, client: Client, messages: seq<Event>): Link {
    l.(client := client, up := l.up + messages, sent := l.sent + messages)
  }

  // The launcher takes the head of its queue, which it reads as `e`.
  function Reacts(l: Link, e: Event): Link
    requires l.client.inbox != []
  {
    var c := l.client;
    var reaction := React(c.core, e);
    var next := reaction.next;
    var exec := if next.threadCreated && !c.core.threadCreated then Loading else c.exec;
    Send(l, c.(core := next, looping := next.running, exec := exec, inbox := c.inbox[1..]), reaction.sends)
  }

  function ExecMove(l: Link): Link {
    var c := l.client;
    match c.exec
    case Loading => l.(client := c.(exec := Exited))
    case Exited => l.(client := c.(exec := if KillAppSends(c.core) == [] then Ending else Sending))
    case Sending => Send(l, c.(exec := Ending), [CloseReport(c.core)])
    case Ending => l.(client := c.(exec := Done, core := c.core.(running := false)))
    case _ => l
  }

  function LocalMove(r: Reader, l: Link, step: Step): Link
    requires LocalEnabled(r, l, step)
  {
    match step
    case UpDeliver(_) => l.(session := l.session.(inbox := l.session.inbox + [l.up[0]]), up := l.up[1..])
    case SessionWake(_) => l.(session := l.session.(looping := false))
    case ReadError(_) => l.(session := l.session.(running := false))
    case Release(_) => l.(session := l.session.(registered := false))
    case DownDeliver(_) => l.(client := l.client.(inbox := l.client.inbox + [l.down[0]]), down := l.down[1..])
    case ClientStep(_) => Reacts(l, r(l.client.inbox[0], "").value)
    case ClientWake(_) => l.(client := l.client.(looping := false))
    case ExecStep(_) => ExecMove(l)
    case Crash(_) => l.(client := l.client.(alive := false))
    case _ => l
  }

  /* ---- Moves of the whole system ---- */

  predicate SessionReady(r: Reader, l: Link) {
    l.session.looping && l.session.inbox != [] && r(l.session.inbox[0], l.client.core.pkgname).Some?
  }

  // The event at the head of the session's queue as its handler reads it.
  function Heard(r: Reader, l: Link): Event
    requires SessionReady(r, l)
  {
    r(l.session.inbox[0], l.client.core.pkgname).value
  }

  // The slot granted by this answer, if it is one.
  function Grant(replies: seq<Event>): Option<nat> {
    if |replies| == 1 && replies[0].ResIdleSlot? && replies[0].id >= 0 then Some(replies[0].id) else None
  }

  function Answer(l: Link, slots: seq<Slot>, e: Event): S.Outcome {
    S.Handle(l.session.running, l.session.slotId, slots, e)
  }

  // The connection after its session has handled the head of its inbox with outcome `o`.
  function Answered(l: Link, o: S.Outcome): Link
    requires l.session.inbox != []
  {
    var session := l.session.(running := o.running, slotId := o.slotId, looping := o.running,
                              inbox := l.session.inbox[1..]);
    var grant := Grant(o.replies);
    l.(session := session, down := l.down + o.replies, handled := l.handled + 1,
       granted := if grant.Some? then grant else l.granted)
  }

  // Session `i` takes the head of its queue, which it reads as `e`.
  function SessionMove(s: State, i: nat, e: Event): State
    requires i < |s.links| && s.links[i].session.inbox != []
  {
    var o := Answer(s.links[i], s.slots, e);
    var grant := Grant(o.replies);
    State(o.slots, s.links[i := Answered(s.links[i], o)], s.global + o.globals,
          if grant.Some? && grant.value < |s.owner| then s.owner[grant.value := Some(i)]
          else if e.NotifyClosed? && 0 <= e.id < |s.owner| then s.owner[e.id := None]
          else s.owner,
          s.grants + (if grant.Some? then 1 else 0),
          s.closes + (if e.NotifyClosed? then 1 else 0),
          s.fault || S.IndexBelowTable(e))
  }

  // The slot whose session the global event at the head of the queue asks to tell, as it is read.
  function Asked(r: Reader, s: State): Option<int>
    requires s.global != [] && r(s.global[0], "").Some?
  {
    D.Target(r(s.global[0], "").value)
  }

  // The session map is ordered by fd, which the model leaves open: any registered session that
  // carries the slot may be the one told.
  predicate GlobalEnabled(r: Reader, s: State, told: Option<nat>) {
    && s.global != [] && r(s.global[0], "").Some?
    && match Asked(r, s)
       case None => told == None
       case Some(id) =>
         if told.Some? then
           told.value < |s.links| && s.links[told.value].session.registered
           && s.links[told.value].session.slotId == id
         else forall j :: 0 <= j < |s.links| && s.links[j].session.registered ==> s.links[j].session.slotId != id
  }

  function Tell(l: Link): Link {
    l.(down := l.down + [NotifyAppDied(l.session.slotId)])
  }

  function GlobalMove(s: State, told: Option<nat>): State
    requires s.global != [] && (told.Some? ==> told.value < |s.links|)
  {
    var rest := s.(global := s.global[1..]);
    match told
    case None => rest
    case Some(j) => rest.(links := s.links[j := Tell(s.links[j])])
  }

  predicate Enabled(r: Reader, s: State, step: Step) {
    match step
    case Connect(_, _, _, _) => true
    case SessionStep(i) => i < |s.links| && SessionReady(r, s.links[i])
    case GlobalStep(told) => GlobalEnabled(r, s, told)
    case _ => step.i < |s.links| && LocalEnabled(r, s.links[step.i], step)
  }

  function Apply(r: Reader, s: State, step: Step): State
    requires Enabled(r, s, step)
  {
    match step
    case Connect(mode, appname, pkgname, activity) =>
      s.(links := s.links + [Fresh(mode, appname, pkgname, activity)])
    case SessionStep(i) => SessionMove(s, i, Heard(r, s.links[i]))
    case GlobalStep(told) => GlobalMove(s, told)
    case _ => s.(links := s.links[step.i := LocalMove(r, s.links[step.i], step)])
  }

  // Every step of the list can be taken, one after the other.
  predicate CanRun(r: Reader, s: State, steps: seq<Step>)
    decreases |steps|
  {
    steps == [] || (Enabled(r, s, steps[0]) && CanRun(r, Apply(r, s, steps[0]), steps[1..]))
  }

  function Run(r: Reader, s: State, steps: seq<Step>): State
    requires CanRun(r, s, steps)
    decreases |steps|
  {
    if steps == [] then s else Run(r, Apply(r, s, steps[0]), steps[1..])
  }
}
