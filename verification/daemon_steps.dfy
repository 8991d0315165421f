// The classes of the daemon and the launcher take the steps of the protocol.

module DaemonSteps {
  import opened Wrappers
  import opened Events
  import opened Slots
  import opened VatSession
  import opened LGLauncher
  import opened Protocol
  import opened ProtocolSafety
  import D = Daemon

  /* ---- Whole loops ---- */

  // Every message of the queue can be read.
  predicate Readable(r: Reader, q: seq<Event>, pkgname: string) {
    forall k :: 0 <= k < |q| ==> r(q[k], pkgname).Some?
  }

  // The queue as its handlers read it.
  function AsRead(r: Reader, q: seq<Event>, pkgname: string): (read: seq<Event>)
    requires Readable(r, q, pkgname)
    ensures |read| == |q|
  {
    if q == [] then [] else [r(q[0], pkgname).value] + AsRead(r, q[1..], pkgname)
  }

  lemma AsReadSplits(r: Reader, q: seq<Event>, pkgname: string)
    requires Readable(r, q, pkgname) && q != []
    ensures Readable(r, q[1..], pkgname)
    ensures var read := AsRead(r, q, pkgname);
            read[0] == r(q[0], pkgname).value && read[1..] == AsRead(r, q[1..], pkgname)
  {
  }

  // From `s` to `t` the session of connection `i` has done `o`, and nothing else has happened.
  predicate Did(s: State, t: State, i: nat, o: Outcome) {
    && i < |s.links| == |t.links|
    && t.slots == o.slots && t.global == s.global + o.globals
    && t.links[i].session.running == o.running && t.links[i].session.slotId == o.slotId
    && t.links[i].down == s.links[i].down + o.replies
    && (o.running ==> t.links[i].session.inbox == [])
    && forall j :: 0 <= j < |s.links| && j != i ==> t.links[j] == s.links[j]
  }

  // What the loop of session `i` makes of its queue.
  function Looped(r: Reader, s: State, i: nat): Outcome
    requires i < |s.links| && Readable(r, s.links[i].session.inbox, s.links[i].client.core.pkgname)
  {
    var l := s.links[i];
    HandleAll(true, l.session.slotId, s.slots, AsRead(r, l.session.inbox, l.client.core.pkgname))
  }

  lemma HandleAllSplits(slotId: int, slots: seq<Slot>, q: seq<Event>)
    requires q != []
    ensures var one := Handle(true, slotId, slots, q[0]);
            var tail := if one.running then HandleAll(true, one.slotId, one.slots, q[1..])
                        else Outcome(false, one.slotId, one.slots, [], []);
            HandleAll(true, slotId, slots, q)
            == tail.(replies := one.replies + tail.replies, globals := one.globals + tail.globals)
  {
  }

  // The loop's first round, and the rest of it.
  lemma LoopedUnfolds(r: Reader, s: State, i: nat)
    requires i < |s.links| && s.links[i].session.looping && s.links[i].session.running && s.links[i].session.inbox != []
    requires Readable(r, s.links[i].session.inbox, s.links[i].client.core.pkgname)
    ensures Enabled(r, s, SessionStep(i))
    ensures var l, t := s.links[i], Apply(r, s, SessionStep(i));
            var o := Answer(l, s.slots, Heard(r, l));
            && t.links[i].client == l.client && t.links[i].session.inbox == l.session.inbox[1..]
            && Readable(r, l.session.inbox[1..], l.client.core.pkgname)
            && t.links[i].session.running == t.links[i].session.looping == o.running
            && var tail := if o.running then Looped(r, t, i) else Outcome(false, o.slotId, o.slots, [], []);
               Looped(r, s, i) == tail.(replies := o.replies + tail.replies, globals := o.globals + tail.globals)
  {
    var l := s.links[i];
    var q := AsRead(r, l.session.inbox, l.client.core.pkgname);
    AsReadSplits(r, l.session.inbox, l.client.core.pkgname);
    HandleAllSplits(l.session.slotId, s.slots, q);
    assert Apply(r, s, SessionStep(i)) == SessionMove(s, i, q[0]);
  }

  // The loop of a session, undisturbed, is a run of its steps.
  lemma {:induction false} SessionLoop(r: Reader, s: State, i: nat) returns (steps: seq<Step>)
    requires i < |s.links| && s.links[i].session.looping && s.links[i].session.running
    requires Readable(r, s.links[i].session.inbox, s.links[i].client.core.pkgname)
    ensures CanRun(r, s, steps) && forall k :: 0 <= k < |steps| ==> steps[k] == SessionStep(i)
    ensures Did(s, Run(r, s, steps), i, Looped(r, s, i))
    decreases |s.links[i].session.inbox|
  {
    if s.links[i].session.inbox == [] {
      steps := [];
    } else {
      LoopedUnfolds(r, s, i);
      var t := Apply(r, s, SessionStep(i));
      if t.links[i].session.running {
        var rest := SessionLoop(r, t, i);
        steps := [SessionStep(i)] + rest;
        RunStep(r, s, SessionStep(i), rest);
        DidFirst(r, s, Run(r, t, rest), i);
      } else {
        steps := [SessionStep(i)] + [];
        RunStep(r, s, SessionStep(i), []);
        DidAll(r, s, i);
      }
    }
  }

  lemma DidFirst(r: Reader, s: State, u: State, i: nat)
    requires i < |s.links| && s.links[i].session.looping && s.links[i].session.running && s.links[i].session.inbox != []
    requires Readable(r, s.links[i].session.inbox, s.links[i].client.core.pkgname)
    requires var t := Apply(r, s, SessionStep(i));
             && t.links[i].session.running && Readable(r, t.links[i].session.inbox, t.links[i].client.core.pkgname)
             && Did(t, u, i, Looped(r, t, i))
    ensures Did(s, u, i, Looped(r, s, i))
  {
    LoopedUnfolds(r, s, i);
    var l := s.links[i];
    DidThen(s, Apply(r, s, SessionStep(i)), u, i, Answer(l, s.slots, Heard(r, l)),
            Looped(r, Apply(r, s, SessionStep(i)), i));
  }

  lemma DidThen(s: State, t: State, u: State, i: nat, o: Outcome, tail: Outcome)
    requires i < |s.links| == |t.links| && t.global == s.global + o.globals
    requires t.links[i].down == s.links[i].down + o.replies && Did(t, u, i, tail)
    requires forall j :: 0 <= j < |s.links| && j != i ==> t.links[j] == s.links[j]
    ensures Did(s, u, i, tail.(replies := o.replies + tail.replies, globals := o.globals + tail.globals))
  {
    assert s.links[i].down + (o.replies + tail.replies) == t.links[i].down + tail.replies;
    assert s.global + (o.globals + tail.globals) == t.global + tail.globals;
  }

  lemma DidAll(r: Reader, s: State, i: nat)
    requires i < |s.links| && s.links[i].session.looping && s.links[i].session.running && s.links[i].session.inbox != []
    requires Readable(r, s.links[i].session.inbox, s.links[i].client.core.pkgname)
    requires !Apply(r, s, SessionStep(i)).links[i].session.running
    ensures Did(s, Apply(r, s, SessionStep(i)), i, Looped(r, s, i))
  {
    LoopedUnfolds(r, s, i);
    var o := Answer(s.links[i], s.slots, Heard(r, s.links[i]));
    assert o.replies + [] == o.replies && o.globals + [] == o.globals;
  }

  // From `s` to `t` the main loop of connection `i` has done `n`, and nothing else has happened.
  predicate Reacted(s: State, t: State, i: nat, n: Reaction) {
    && i < |s.links| == |t.links| && t.links[i].client.core == n.next
    && t.links[i].up == s.links[i].up + n.sends && t.links[i].sent == s.links[i].sent + n.sends
    && (n.next.running ==> t.links[i].client.inbox == [])
    && t.slots == s.slots && t.global == s.global
    && forall j :: 0 <= j < |s.links| && j != i ==> t.links[j] == s.links[j]
  }

  function LoopedClient(r: Reader, s: State, i: nat): Reaction
    requires i < |s.links| && Readable(r, s.links[i].client.inbox, "")
  {
    ReactAll(s.links[i].client.core, AsRead(r, s.links[i].client.inbox, ""))
  }

  lemma ReactAllSplits(c: Launcher, q: seq<Event>)
    requires q != [] && c.running
    ensures var one := React(c, q[0]);
            var tail := if one.next.running then ReactAll(one.next, q[1..]) else Reaction(one.next, []);
            ReactAll(c, q) == Reaction(tail.next, one.sends + tail.sends)
  {
  }

  lemma LoopedClientUnfolds(r: Reader, s: State, i: nat)
    requires Enabled(r, s, ClientStep(i)) && s.links[i].client.core.running && Readable(r, s.links[i].client.inbox, "")
    ensures var l, t := s.links[i], Apply(r, s, ClientStep(i));
            var one := React(l.client.core, r(l.client.inbox[0], "").value);
            && t.links[i].client.inbox == l.client.inbox[1..] && Readable(r, l.client.inbox[1..], "")
            && t.links[i].client.core == one.next && t.links[i].client.looping == one.next.running
            && var tail := if one.next.running then LoopedClient(r, t, i) else Reaction(one.next, []);
               LoopedClient(r, s, i) == Reaction(tail.next, one.sends + tail.sends)
  {
    var c := s.links[i].client;
    AsReadSplits(r, c.inbox, "");
    ReactAllSplits(c.core, AsRead(r, c.inbox, ""));
    assert Apply(r, s, ClientStep(i)).links[i] == Reacts(s.links[i], AsRead(r, c.inbox, "")[0]);
  }

  // The main loop of a launcher, undisturbed, is a run of its steps.
  lemma {:induction false} ClientLoop(r: Reader, s: State, i: nat) returns (steps: seq<Step>)
    requires i < |s.links| && s.links[i].client.alive && s.links[i].client.looping && s.links[i].client.core.running
    requires Readable(r, s.links[i].client.inbox, "")
    ensures CanRun(r, s, steps) && forall k :: 0 <= k < |steps| ==> steps[k] == ClientStep(i)
    ensures Reacted(s, Run(r, s, steps), i, LoopedClient(r, s, i))
    decreases |s.links[i].client.inbox|
  {
    if s.links[i].client.inbox == [] {
      steps := [];
    } else {
      LoopedClientUnfolds(r, s, i);
      var t := Apply(r, s, ClientStep(i));
      if t.links[i].client.core.running {
        var rest := ClientLoop(r, t, i);
        steps := [ClientStep(i)] + rest;
        RunStep(r, s, ClientStep(i), rest);
        ReactedFirst(r, s, Run(r, t, rest), i);
      } else {
        steps := [ClientStep(i)] + [];
        RunStep(r, s, ClientStep(i), []);
        ReactedAll(r, s, i);
      }
    }
  }

  lemma ReactedFirst(r: Reader, s: State, u: State, i: nat)
    requires Enabled(r, s, ClientStep(i)) && s.links[i].client.core.running && Readable(r, s.links[i].client.inbox, "")
    requires var t := Apply(r, s, ClientStep(i));
             && t.links[i].client.core.running && Readable(r, t.links[i].client.inbox, "")
             && Reacted(t, u, i, LoopedClient(r, t, i))
    ensures Reacted(s, u, i, LoopedClient(r, s, i))
  {
    LoopedClientUnfolds(r, s, i);
    var l := s.links[i];
    ReactedThen(s, Apply(r, s, ClientStep(i)), u, i, React(l.client.core, r(l.client.inbox[0], "").value),
                LoopedClient(r, Apply(r, s, ClientStep(i)), i));
  }

  lemma ReactedThen(s: State, t: State, u: State, i: nat, one: Reaction, tail: Reaction)
    requires i < |s.links| == |t.links| && t.slots == s.slots && t.global == s.global && Reacted(t, u, i, tail)
    requires t.links[i].up == s.links[i].up + one.sends && t.links[i].sent == s.links[i].sent + one.sends
    requires forall j :: 0 <= j < |s.links| && j != i ==> t.links[j] == s.links[j]
    ensures Reacted(s, u, i, Reaction(tail.next, one.sends + tail.sends))
  {
    assert s.links[i].up + (one.sends + tail.sends) == t.links[i].up + tail.sends;
    assert s.links[i].sent + (one.sends + tail.sends) == t.links[i].sent + tail.sends;
  }

  lemma ReactedAll(r: Reader, s: State, i: nat)
    requires Enabled(r, s, ClientStep(i)) && s.links[i].client.core.running && Readable(r, s.links[i].client.inbox, "")
    requires !Apply(r, s, ClientStep(i)).links[i].client.core.running
    ensures Reacted(s, Apply(r, s, ClientStep(i)), i, LoopedClient(r, s, i))
  {
    LoopedClientUnfolds(r, s, i);
    var one := React(s.links[i].client.core, r(s.links[i].client.inbox[0], "").value);
    assert one.sends + [] == one.sends;
  }

  /* ---- The viewer thread ---- */

  // After the application has exited.
  function ViewerSteps(running: bool, i: nat): seq<Step> {
    if running then [ExecStep(i)] + ([ExecStep(i)] + ([ExecStep(i)] + [])) else [ExecStep(i)] + ([ExecStep(i)] + [])
  }

  // Connection `i` once its viewer thread has ended.
  function Ended(l: Link): Link {
    var c := l.client;
    Send(l, c.(exec := Done, core := c.core.(running := false)), KillAppSends(c.core))
  }

  lemma EndsRunning(r: Reader, s: State, i: nat)
    requires i < |s.links| && s.links[i].client.alive && s.links[i].client.exec == Exited
    requires s.links[i].client.core.running
    ensures CanRun(r, s, ViewerSteps(true, i))
    ensures Run(r, s, ViewerSteps(true, i)) == s.(links := s.links[i := Ended(s.links[i])])
  {
    var l := s.links[i];
    var l1 := ExecMove(l);
    var s1, s2 := s.(links := s.links[i := l1]), s.(links := s.links[i := ExecMove(l1)]);
    LocalOnce(r, s, ExecStep(i), l, l1);
    LocalOnce(r, s1, ExecStep(i), l1, ExecMove(l1));
    LocalOnce(r, s2, ExecStep(i), ExecMove(l1), Ended(l));
    assert s1.links[i := ExecMove(l1)] == s2.links && s2.links[i := Ended(l)] == s.links[i := Ended(l)];
    RunStep(r, s2, ExecStep(i), []);
    RunStep(r, s1, ExecStep(i), [ExecStep(i)] + []);
    RunStep(r, s, ExecStep(i), [ExecStep(i)] + ([ExecStep(i)] + []));
  }

  lemma EndsStopped(r: Reader, s: State, i: nat)
    requires i < |s.links| && s.links[i].client.alive && s.links[i].client.exec == Exited
    requires !s.links[i].client.core.running
    ensures CanRun(r, s, ViewerSteps(false, i))
    ensures Run(r, s, ViewerSteps(false, i)) == s.(links := s.links[i := Ended(s.links[i])])
  {
    var l := s.links[i];
    var l1 := ExecMove(l);
    var s1 := s.(links := s.links[i := l1]);
    assert l.up + [] == l.up && l.sent + [] == l.sent;
    LocalOnce(r, s, ExecStep(i), l, l1);
    LocalOnce(r, s1, ExecStep(i), l1, Ended(l));
    assert s1.links[i := Ended(l)] == s.links[i := Ended(l)];
    RunStep(r, s1, ExecStep(i), []);
    RunStep(r, s, ExecStep(i), [ExecStep(i)] + []);
  }

  // The viewer thread of the launcher on connection `i` ends: the class takes the steps of the model.
  method ViewerEnds(c: LGClient, ghost r: Reader, ghost s: State, ghost i: nat)
    requires i < |s.links| && s.links[i].client.alive && s.links[i].client.exec == Exited
    requires c.Value() == s.links[i].client.core && c.sent == s.links[i].sent
    modifies c
    ensures CanRun(r, s, ViewerSteps(old(c.running), i))
    ensures var t := Run(r, s, ViewerSteps(old(c.running), i));
            && t == s.(links := s.links[i := Ended(s.links[i])])
            && c.Value() == t.links[i].client.core && c.sent == t.links[i].sent
  {
    if c.running {
      EndsRunning(r, s, i);
    } else {
      EndsStopped(r, s, i);
    }
    c.ExecLG();
  }

  /* ---- The daemon in memory ---- */

  // The map finds each registered session once.
  ghost predicate Finds(at: map<int, nat>, s: State) {
    && (forall a, b :: a in at && b in at && a != b ==> at[a] != at[b])
    && (forall fd :: fd in at ==> at[fd] < |s.links| && s.links[at[fd]].session.registered)
    && (forall i :: 0 <= i < |s.links| && s.links[i].session.registered ==> exists fd :: fd in at && at[fd] == i)
  }

  // The daemon shows state `s`: its map holds the registered sessions, that on descriptor `fd` being
  // the session of connection `at[fd]`.
  ghost predicate Shows(d: D.VatCliDaemon, s: State, at: map<int, nat>)
    reads d, d.clients.Values, d.slots, d.globalQueue
  {
    && d.Valid() && Finds(at, s) && d.clients.Keys == at.Keys
    && (forall fd :: fd in at ==> SameSession(d.clients[fd], s.links[at[fd]].session))
    && d.slots[..] == s.slots && d.globalQueue.events == s.global
  }

  ghost predicate SameSession(v: VatClient, session: Session)
    reads v
  {
    v.running == session.running && v.slotId == session.slotId
  }

  lemma MoveIsFound(s: State, i: nat, e: Event, at: map<int, nat>)
    requires Finds(at, s) && i < |s.links| && s.links[i].session.inbox != []
    ensures Finds(at, SessionMove(s, i, e))
    ensures forall f :: f in at && at[f] != i ==> SessionMove(s, i, e).links[at[f]] == s.links[at[f]]
  {
  }

  // A session handles the event at the head of its queue.
  method HandleNext(d: D.VatCliDaemon, fd: int, e: Event, ghost r: Reader, ghost s: State, ghost at: map<int, nat>)
    requires Shows(d, s, at) && fd in d.clients && Enabled(r, s, SessionStep(at[fd]))
    requires e == Heard(r, s.links[at[fd]]) && !IndexBelowTable(e)
    modifies d.clients.Values, d.slots, d.globalQueue
    ensures Shows(d, Apply(r, s, SessionStep(at[fd])), at)
    ensures var replies := Answer(s.links[at[fd]], s.slots, e).replies;
            && Apply(r, s, SessionStep(at[fd])).links[at[fd]].down == s.links[at[fd]].down + replies
            && d.clients[fd].sent == old(d.clients[fd].sent) + replies
  {
    MoveIsFound(s, at[fd], e, at);
    var session := d.clients[fd];
    session.HandleEvent(e);
  }

  // Which connection is told when the session on `fd`, or none, is.
  function Told(at: map<int, nat>, fd: Option<int>): Option<nat>
    requires fd.Some? ==> fd.value in at
  {
    match fd
    case None => None
    case Some(f) => Some(at[f])
  }

  // The slot of the session on each descriptor.
  ghost predicate Carry(s: State, at: map<int, nat>, slots: map<int, int>) {
    && Finds(at, s) && slots.Keys == at.Keys
    && forall f :: f in at ==> s.links[at[f]].session.slotId == slots[f]
  }

  lemma ToldEnabled(r: Reader, s: State, at: map<int, nat>, slots: map<int, int>, fd: Option<int>, read: Event)
    requires Carry(s, at, slots) && s.global != [] && r(s.global[0], "") == Some(read)
    requires fd.Some? ==> fd.value in at && D.Target(read) == Some(slots[fd.value])
    requires fd == None && D.Target(read).Some? ==> forall f :: f in slots ==> slots[f] != D.Target(read).value
    ensures GlobalEnabled(r, s, Told(at, fd))
    ensures SameSessions(s, GlobalMove(s, Told(at, fd)))
  {
  }

  predicate SameSessions(s: State, t: State) {
    && |t.links| == |s.links| && t.slots == s.slots
    && forall i :: 0 <= i < |s.links| ==> t.links[i].session == s.links[i].session
  }

  lemma ShowsToo(d: D.VatCliDaemon, s: State, t: State, at: map<int, nat>)
    requires Shows(d, s, at) && SameSessions(s, t) && t.global == s.global
    ensures Shows(d, t, at)
  {
  }

  method Pop(d: D.VatCliDaemon, ghost s: State, ghost at: map<int, nat>) returns (e: Event)
    requires Shows(d, s, at) && d.globalQueue.events != []
    modifies d.globalQueue
    ensures s.global != [] && e == s.global[0] && Shows(d, s.(global := s.global[1..]), at)
  {
    e := d.globalQueue.events[0];
    d.globalQueue.events := d.globalQueue.events[1..];
  }

  method Tells(d: D.VatCliDaemon, e: Event, ghost s: State, ghost at: map<int, nat>)
    returns (fd: Option<int>, ghost slots: map<int, int>)
    requires Shows(d, s, at)
    modifies d.clients.Values
    ensures Shows(d, s, at) && Carry(s, at, slots)
    ensures fd.Some? ==> fd.value in at && D.Target(e) == Some(slots[fd.value])
    ensures fd == None && D.Target(e).Some? ==> forall f :: f in slots ==> slots[f] != D.Target(e).value
    ensures fd.Some? ==>
              d.clients[fd.value].sent == old(d.clients[fd.value].sent) + [NotifyAppDied(d.clients[fd.value].slotId)]
    ensures forall f :: f in at && fd != Some(f) ==> d.clients[f].sent == old(d.clients[f].sent)
  {
    slots := map f | f in at :: d.clients[f].slotId;
    fd := d.HandleGlobal(e);
  }

  // The daemon's loop takes a global event, which it reads as `read`: some step of the protocol does the
  // same.
  method TakeGlobal(d: D.VatCliDaemon, read: Event, ghost r: Reader, ghost s: State, ghost at: map<int, nat>)
    returns (fd: Option<int>)
    requires Shows(d, s, at) && d.globalQueue.events != [] && r(d.globalQueue.events[0], "") == Some(read)
    modifies d.clients.Values, d.globalQueue
    ensures fd.Some? ==> fd.value in at
    ensures Enabled(r, s, GlobalStep(Told(at, fd))) && Shows(d, Apply(r, s, GlobalStep(Told(at, fd))), at)
    ensures fd.Some? ==>
              d.clients[fd.value].sent == old(d.clients[fd.value].sent) + [NotifyAppDied(d.clients[fd.value].slotId)]
    ensures forall f :: f in at && fd != Some(f) ==> d.clients[f].sent == old(d.clients[f].sent)
  {
    var e := Pop(d, s, at);
    ghost var s1 := s.(global := s.global[1..]);
    ghost var slots;
    fd, slots := Tells(d, read, s1, at);
    ToldEnabled(r, s, at, slots, fd, read);
    ShowsToo(d, s1, GlobalMove(s, Told(at, fd)), at);
  }

  // A new connection, on a descriptor that is not in use.
  method Connects(d: D.VatCliDaemon, fd: int, ghost r: Reader, ghost s: State, ghost at: map<int, nat>,
                  ghost connect: Step)
    requires Shows(d, s, at) && fd !in d.clients && connect.Connect?
    modifies d
    ensures Shows(d, Apply(r, s, connect), at[fd := |s.links|])
  {
    d.Accept(fd);
    NewIsFound(r, s, at, fd, connect);
  }

  lemma NewIsFound(r: Reader, s: State, at: map<int, nat>, fd: int, connect: Step)
    requires Finds(at, s) && fd !in at && connect.Connect?
    ensures Finds(at[fd := |s.links|], Apply(r, s, connect))
  {
    var s', at' := Apply(r, s, connect), at[fd := |s.links|];
    forall i | 0 <= i < |s'.links| && s'.links[i].session.registered ensures exists f :: f in at' && at'[f] == i {
      if i < |s.links| {
        var f :| f in at && at[f] == i;
        assert f in at' && at'[f] == i;
      } else {
        assert at'[fd] == i;
      }
    }
  }

  // What a read event on connection `i` is: a whole message, a failed read, the release of a session
  // that has stopped.
  function ReadSteps(running: bool, readCounts: int, i: nat): seq<Step> {
    (if readCounts > 0 then [UpDeliver(i)] else if running then [ReadError(i)] else [])
    + (if running && readCounts > 0 then [] else [Release(i)])
  }

  // The session of connection `i` after a read event; its other fields and all other connections stay.
  predicate AfterRead(s: State, t: State, i: nat, stays: bool) {
    && i < |s.links| == |t.links| && t.slots == s.slots && t.global == s.global
    && t.links[i].session.slotId == s.links[i].session.slotId
    && t.links[i].session.running == stays && t.links[i].session.registered == stays
    && forall j :: 0 <= j < |s.links| && j != i ==> t.links[j] == s.links[j]
  }

  // A whole message has gone from the socket to the end of the session's queue, or none has.
  predicate Delivered(l: Link, l': Link, whole: bool) {
    if whole then l.up != [] && l'.up == l.up[1..] && l'.session.inbox == l.session.inbox + [l.up[0]]
    else l'.up == l.up && l'.session.inbox == l.session.inbox
  }

  lemma ReadRun(r: Reader, s: State, running: bool, readCounts: int, i: nat)
    requires i < |s.links| && s.links[i].session.registered && s.links[i].session.running == running
    requires readCounts > 0 ==> s.links[i].up != []
    ensures CanRun(r, s, ReadSteps(running, readCounts, i))
    ensures AfterRead(s, Run(r, s, ReadSteps(running, readCounts, i)), i, running && readCounts > 0)
    ensures Delivered(s.links[i], Run(r, s, ReadSteps(running, readCounts, i)).links[i], readCounts > 0)
  {
    var steps := ReadSteps(running, readCounts, i);
    if |steps| == 2 {
      var t := Apply(r, s, steps[0]);
      RunStep(r, t, Release(i), []);
      assert [Release(i)] + [] == [Release(i)] && [steps[0]] + [Release(i)] == steps;
      RunStep(r, s, steps[0], [Release(i)]);
    } else {
      assert [steps[0]] + [] == steps;
      RunStep(r, s, steps[0], []);
    }
  }

  // The connections that stay on the map are still found there.
  lemma StillFound(s: State, t: State, i: nat, at: map<int, nat>, fd: int, stays: bool)
    requires AfterRead(s, t, i, stays) && fd in at && at[fd] == i && Finds(at, s)
    ensures Finds(if stays then at else at - {fd}, t)
    ensures forall f :: f in at && f != fd ==> t.links[at[f]] == s.links[at[f]]
  {
    var at' := if stays then at else at - {fd};
    forall j | 0 <= j < |t.links| && t.links[j].session.registered ensures exists f :: f in at' && at'[f] == j {
      var f :| f in at && at[f] == j;
      assert f in at';
    }
  }

  method Reads(d: D.VatCliDaemon, fd: int, readCounts: int, ghost r: Reader, ghost s: State, ghost at: map<int, nat>)
    requires Shows(d, s, at) && fd in d.clients && (readCounts > 0 ==> s.links[at[fd]].up != [])
    modifies d, d.clients.Values
    ensures CanRun(r, s, ReadSteps(old(d.clients[fd].running), readCounts, at[fd]))
    ensures Shows(d, Run(r, s, ReadSteps(old(d.clients[fd].running), readCounts, at[fd])),
                  if old(d.clients[fd].running) && readCounts > 0 then at else at - {fd})
    ensures var t := Run(r, s, ReadSteps(old(d.clients[fd].running), readCounts, at[fd]));
            at[fd] < |t.links| && Delivered(s.links[at[fd]], t.links[at[fd]], readCounts > 0)
  {
    ghost var i, running := at[fd], d.clients[fd].running;
    ReadRun(r, s, running, readCounts, i);
    ghost var t := Run(r, s, ReadSteps(running, readCounts, i));
    StillFound(s, t, i, at, fd, running && readCounts > 0);
    d.Readable(fd, readCounts);
  }
}
