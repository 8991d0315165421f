// Closing an application by name, from the request to the freed slot.

module ProtocolClose {
  import opened Wrappers
  import opened Events
  import opened Slots
  import opened VatSession
  import opened LGLauncher
  import opened Protocol
  import opened ProtocolInvariant
  import opened ProtocolSafety
  import T = ProtocolTheorems

  // The launcher of connection `l` sits in its main loop with its application running, everything
  // sent in either direction handled, and its session still on the daemon's map.
  predicate Running(l: Link) {
    && l.client.alive && l.client.core.running && l.client.exec == Loading && Coming(l) == [] && Pending(l) == []
    && l.session.registered && l.session.running
  }

  // Connection `j` is the only one on the daemon's map that carries slot `g`.
  predicate OnlyCarrier(s: State, j: nat, g: int) {
    && j < |s.links| && s.links[j].session.registered && s.links[j].session.slotId == g
    && forall i :: 0 <= i < |s.links| && i != j && s.links[i].session.registered ==> s.links[i].session.slotId != g
  }

  // The daemon reads slot `g` from the global close that a session sends for this slot and name.
  predicate AsksFor(r: Reader, appname: string, g: nat) {
    var e := r(NotifyCloseByName(appname, g), "");
    e.Some? && e.value.NotifyCloseByName? && e.value.id == g
  }

  function Path(k: nat, j: nat): seq<Step> {
    [SessionStep(k), GlobalStep(Some(j)), DownDeliver(j), ClientStep(j), UpDeliver(j), SessionStep(j)]
  }

  // The launcher whose application runs carries the slot it was granted.
  lemma RunningOwner(l: Link)
    requires LinkInv(l) && Running(l)
    ensures l.client.mode == Launch && l.granted.Some? && l.client.core.instanceId == Some(l.granted.value)
    ensures l.session.inbox == [] && l.up == [] && l.client.inbox == [] && l.down == []
    ensures l.client.looping && l.session.looping
  {
  }

  // The launcher waits for APP_DIED of slot `g` with nothing else under way.
  predicate Dying(l: Link, g: nat) {
    && l.client.alive && l.client.core.running && l.client.looping && l.client.inbox == []
    && l.client.core.instanceId == Some(g) && l.down == [NotifyAppDied(g)] && g < MAX_SLOTS
    && l.session.registered && l.session.looping && l.session.inbox == [] && l.up == []
  }

  // It hears APP_DIED and answers with its close, which reaches the session.
  function Told(l: Link, g: nat): Link
    requires Dying(l, g)
  {
    l.(client := l.client.(inbox := [NotifyAppDied(g)]), down := [])
  }

  function Answering(l: Link, g: nat): Link
    requires Dying(l, g)
  {
    Closing(l, g).(session := l.session, up := [NotifyClosed(g)])
  }

  function Closing(l: Link, g: nat): Link
    requires Dying(l, g)
  {
    var core := l.client.core.(running := false, result := 0);
    var close := NotifyClosed(g);
    l.(client := l.client.(core := core, looping := false), down := [],
       session := l.session.(inbox := [close]), sent := l.sent + [close])
  }

  lemma DyingDelivers(r: Reader, l: Link, g: nat, j: nat)
    requires Dying(l, g)
    ensures LocalEnabled(r, l, DownDeliver(j)) && LocalMove(r, l, DownDeliver(j)) == Told(l, g)
    ensures LocalEnabled(r, Answering(l, g), UpDeliver(j))
    ensures LocalMove(r, Answering(l, g), UpDeliver(j)) == Closing(l, g)
  {
    assert l.down[1..] == [] && l.client.inbox + [l.down[0]] == [NotifyAppDied(g)];
    assert Answering(l, g).up[1..] == [] && l.session.inbox + [Answering(l, g).up[0]] == [NotifyClosed(g)];
  }

  lemma DyingAnswers(r: Reader, l: Link, g: nat, j: nat)
    requires Sound(r) && Dying(l, g)
    ensures LocalEnabled(r, Told(l, g), ClientStep(j)) && LocalMove(r, Told(l, g), ClientStep(j)) == Answering(l, g)
  {
    assert Nameless(NotifyAppDied(g));
    assert Told(l, g).client.inbox[1..] == [] && l.up + [NotifyClosed(g)] == [NotifyClosed(g)];
  }

  lemma OwnerHears(r: Reader, s: State, g: nat, j: nat)
    requires Sound(r) && j < |s.links| && Dying(s.links[j], g)
    ensures var path := [DownDeliver(j)] + ([ClientStep(j)] + ([UpDeliver(j)] + []));
            CanRun(r, s, path) && Run(r, s, path) == s.(links := s.links[j := Closing(s.links[j], g)])
  {
    var l := s.links[j];
    var s1, s2 := s.(links := s.links[j := Told(l, g)]), s.(links := s.links[j := Answering(l, g)]);
    DyingDelivers(r, l, g, j);
    DyingAnswers(r, l, g, j);
    LocalOnce(r, s, DownDeliver(j), l, Told(l, g));
    LocalOnce(r, s1, ClientStep(j), Told(l, g), Answering(l, g));
    LocalOnce(r, s2, UpDeliver(j), Answering(l, g), Closing(l, g));
    assert s1.links[j := Answering(l, g)] == s2.links;
    assert s2.links[j := Closing(l, g)] == s.links[j := Closing(l, g)];
    RunStep(r, s2, UpDeliver(j), []);
    RunStep(r, s1, ClientStep(j), [UpDeliver(j)] + []);
    RunStep(r, s, DownDeliver(j), [ClientStep(j)] + ([UpDeliver(j)] + []));
  }

  // From `s` to `t` owner `j` has given slot `g` back, and nothing else has changed.
  predicate GivenBack(s: State, t: State, g: nat, j: nat) {
    && g < |s.slots| && t.slots == s.slots[g := s.slots[g].(status := Idle)]
    && t.global == s.global && j < |s.links| == |t.links|
    && !t.links[j].client.core.running && !t.links[j].session.running
    && forall i :: 0 <= i < |s.links| && i != j ==> t.links[i] == s.links[i]
  }

  // The second half of the path: the owner hears APP_DIED, answers, and its session frees the slot.
  lemma OwnerCloses(r: Reader, s: State, g: nat, j: nat)
    requires Sound(r) && j < |s.links| && g < |s.slots| && Dying(s.links[j], g)
    ensures var path := [DownDeliver(j), ClientStep(j), UpDeliver(j), SessionStep(j)];
            CanRun(r, s, path) && GivenBack(s, Run(r, s, path), g, j)
  {
    OwnerHears(r, s, g, j);
    var first := [DownDeliver(j)] + ([ClientStep(j)] + ([UpDeliver(j)] + []));
    CloseHeard(r, s.(links := s.links[j := Closing(s.links[j], g)]), g, j);
    RunJoin(r, s, first, [SessionStep(j)]);
    OwnerPath(j);
    ClosingGivesBack(s, Run(r, s, first + [SessionStep(j)]), g, j);
  }

  lemma OwnerPath(j: nat)
    ensures [DownDeliver(j)] + ([ClientStep(j)] + ([UpDeliver(j)] + [])) + [SessionStep(j)]
         == [DownDeliver(j), ClientStep(j), UpDeliver(j), SessionStep(j)]
  {
  }

  lemma ClosingGivesBack(s: State, t: State, g: nat, j: nat)
    requires j < |s.links| && g < |s.slots| && Dying(s.links[j], g)
    requires GivenBy(s.(links := s.links[j := Closing(s.links[j], g)]), t, g, j)
    ensures GivenBack(s, t, g, j)
  {
  }

  // The session of connection `j` has handled the close of slot `g`.
  predicate GivenBy(s: State, t: State, g: nat, j: nat) {
    && g < |s.slots| && t.slots == s.slots[g := s.slots[g].(status := Idle)] && t.global == s.global
    && j < |s.links| == |t.links| && !t.links[j].session.running && t.links[j].client == s.links[j].client
    && forall i :: 0 <= i < |s.links| && i != j ==> t.links[i] == s.links[i]
  }

  lemma CloseHeard(r: Reader, s: State, g: nat, j: nat)
    requires Sound(r) && j < |s.links| && g < |s.slots| && g < MAX_SLOTS
    requires s.links[j].session.looping && s.links[j].session.inbox == [NotifyClosed(g)]
    ensures CanRun(r, s, [SessionStep(j)]) && GivenBy(s, Run(r, s, [SessionStep(j)]), g, j)
  {
    assert Nameless(NotifyClosed(g));
    assert Enabled(r, s, SessionStep(j)) && Heard(r, s.links[j]) == NotifyClosed(g);
    RunStep(r, s, SessionStep(j), []);
  }

  // The requester's session finds the slot of the name that it reads.
  lemma RequestFinds(s: State, k: nat, e: Event, g: nat)
    requires Moves(s, k, e) && s.links[k].client.mode == CloseByName && e.ReqCloseByName?
    requires LowestRunning(s.slots, e.appname, g) && s.global == []
    ensures var t := SessionMove(s, k, e);
            && t.global == [NotifyCloseByName(e.appname, g)] && t.slots == s.slots
            && t.links == s.links[k := t.links[k]] && t.links[k].session.slotId == -1
            && Coming(t.links[k]) == [NotifyCloseByNameNotified]
  {
    var l := s.links[k];
    NextMessage(l);
    CloseIsExact(l.session.running, l.session.slotId, s.slots, e.appname);
    assert Answer(l, s.slots, e) == Handle(l.session.running, l.session.slotId, s.slots, ReqCloseByName(e.appname));
    AnsweredQueues(l, Answer(l, s.slots, e));
    assert Coming(l) == [];
  }

  // Requester `k` asks by name, the lowest used slot that matches is `g`, and its owner `j` is the only
  // one to carry it and sits in its main loop.
  predicate Asking(r: Reader, s: State, k: nat, g: nat, j: nat) {
    && k < |s.links| && SessionReady(r, s.links[k]) && Heard(r, s.links[k]).ReqCloseByName?
    && g < |s.slots| && AsksFor(r, Heard(r, s.links[k]).appname, g)
    && s.global == [] && OnlyCarrier(s, j, g) && Running(s.links[j]) && s.links[j].granted == Some(g)
  }

  lemma OwnerDies(s: State, g: nat, j: nat)
    requires Inv(s) && OnlyCarrier(s, j, g) && Running(s.links[j]) && s.links[j].granted == Some(g)
    ensures Dying(Tell(s.links[j]), g)
  {
    assert OwnsGrant(s, j);
    RunningOwner(s.links[j]);
    assert Tell(s.links[j]).down == [] + [NotifyAppDied(g)];
  }

  // What the first half of the path leaves.
  predicate Reached(s: State, t: State, k: nat, g: nat, j: nat) {
    && t.slots == s.slots && t.global == [] && |t.links| == |s.links| && j < |s.links| && k < |s.links|
    && Dying(t.links[j], g) && Coming(t.links[k]) == [NotifyCloseByNameNotified]
    && forall i :: 0 <= i < |s.links| && i != j && i != k ==> t.links[i] == s.links[i]
  }

  // The first half: the request reaches the owner.
  lemma RequestReachesOwner(r: Reader, s: State, k: nat, g: nat, j: nat)
    requires Sound(r) && Inv(s) && Asking(r, s, k, g, j)
    requires LowestRunning(s.slots, Heard(r, s.links[k]).appname, g)
    ensures var path := [SessionStep(k), GlobalStep(Some(j))];
            j != k && CanRun(r, s, path) && Reached(s, Run(r, s, path), k, g, j)
  {
    var e := Heard(r, s.links[k]);
    HeardMoves(r, s, k);
    AskerCloses(r, s, k);
    RunningOwner(s.links[j]);
    RequestFinds(s, k, e, g);
    OwnerDies(s, g, j);
    ToldOwner(r, s, SessionMove(s, k, e), k, g, j);
    ToldReached(s, SessionMove(s, k, e), k, g, j);
  }

  lemma ToldReached(s: State, s1: State, k: nat, g: nat, j: nat)
    requires k < |s.links| && j < |s.links| && j != k && |s1.links| == |s.links| && s1.slots == s.slots
    requires s1.links == s.links[k := s1.links[k]]
    requires Dying(Tell(s.links[j]), g) && Coming(s1.links[k]) == [NotifyCloseByNameNotified]
    ensures Reached(s, s1.(global := [], links := s1.links[j := Tell(s.links[j])]), k, g, j)
  {
  }

  lemma AskerCloses(r: Reader, s: State, k: nat)
    requires Sound(r) && Inv(s) && Enabled(r, s, SessionStep(k)) && Heard(r, s.links[k]).ReqCloseByName?
    ensures s.links[k].client.mode == CloseByName
  {
    HeardMoves(r, s, k);
    if s.links[k].client.mode == Launch {
      NextMessage(s.links[k]);
      LaunchMessage(s.links[k], Heard(r, s.links[k]));
    } else {
      CloserMessage(s.links[k], Heard(r, s.links[k]));
    }
  }

  lemma ToldOwner(r: Reader, s: State, s1: State, k: nat, g: nat, j: nat)
    requires Enabled(r, s, SessionStep(k)) && s1 == SessionMove(s, k, Heard(r, s.links[k])) && j != k
    requires s1.links == s.links[k := s1.links[k]] && s1.links[k].session.slotId == -1
    requires Heard(r, s.links[k]).ReqCloseByName? && AsksFor(r, Heard(r, s.links[k]).appname, g)
    requires s1.global == [NotifyCloseByName(Heard(r, s.links[k]).appname, g)] && OnlyCarrier(s, j, g)
    ensures var path := [SessionStep(k), GlobalStep(Some(j))];
            CanRun(r, s, path) && Run(r, s, path) == s1.(global := [], links := s1.links[j := Tell(s.links[j])])
  {
    assert GlobalEnabled(r, s1, Some(j));
    RunStep(r, s1, GlobalStep(Some(j)), []);
    RunStep(r, s, SessionStep(k), [GlobalStep(Some(j))]);
  }

  // From `s` to `t` exactly slot `g` has become idle, its owner `j` has stopped, requester `k` is
  // told, and no other connection has changed.
  predicate Closed(s: State, t: State, k: nat, g: nat, j: nat) {
    && g < |s.slots| && t.slots == s.slots[g := s.slots[g].(status := Idle)]
    && t.global == [] && |t.links| == |s.links| && j < |s.links| && k < |s.links|
    && !t.links[j].client.core.running && !t.links[j].session.running
    && Coming(t.links[k]) == [NotifyCloseByNameNotified]
    && forall i :: 0 <= i < |s.links| && i != j && i != k ==> t.links[i] == s.links[i]
  }

  lemma PathJoins(r: Reader, s: State, k: nat, g: nat, j: nat)
    requires Sound(r) && j != k && g < |s.slots| && CanRun(r, s, [SessionStep(k), GlobalStep(Some(j))])
    requires Reached(s, Run(r, s, [SessionStep(k), GlobalStep(Some(j))]), k, g, j)
    ensures CanRun(r, s, Path(k, j)) && Closed(s, Run(r, s, Path(k, j)), k, g, j)
  {
    var first := [SessionStep(k), GlobalStep(Some(j))];
    var rest := [DownDeliver(j), ClientStep(j), UpDeliver(j), SessionStep(j)];
    var t := Run(r, s, first);
    OwnerCloses(r, t, g, j);
    RunJoin(r, s, first, rest);
    PathSplits(k, j);
    BothHalves(s, t, Run(r, t, rest), k, g, j);
  }

  lemma PathSplits(k: nat, j: nat)
    ensures [SessionStep(k), GlobalStep(Some(j))] + [DownDeliver(j), ClientStep(j), UpDeliver(j), SessionStep(j)]
         == Path(k, j)
  {
  }

  lemma BothHalves(s: State, t: State, u: State, k: nat, g: nat, j: nat)
    requires j != k && Reached(s, t, k, g, j) && GivenBack(t, u, g, j)
    ensures Closed(s, u, k, g, j)
  {
  }

  // A close request whose name, as its session reads it, matches some running application picks the
  // lowest used slot whose application name contains it; when the daemon reads that slot from the
  // global close, only the slot's owner carries it, and nothing else happens in between, exactly that
  // slot becomes idle and the requester is told.
  lemma CloseByNameFreesTheSlot(r: Reader, n: nat, steps: seq<Step>, k: nat, g: nat, j: nat)
    requires T.Runnable(r, n, steps)
    requires var s := T.Reached(r, n, steps);
             && Asking(r, s, k, g, j) && LowestRunning(s.slots, Heard(r, s.links[k]).appname, g)
    ensures var s := T.Reached(r, n, steps);
            j != k && CanRun(r, s, Path(k, j)) && Closed(s, Run(r, s, Path(k, j)), k, g, j)
  {
    ReachableInv(r, n, steps);
    RequestReachesOwner(r, T.Reached(r, n, steps), k, g, j);
    PathJoins(r, T.Reached(r, n, steps), k, g, j);
  }
}
