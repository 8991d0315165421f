// When a slot can still become idle again. A launcher or a connection that goes away too early leaves
// its slot taken for good, and so does a bundle that takes a slot nobody was granted.

module ProtocolRecovery {
  import opened Wrappers
  import opened Events
  import opened Slots
  import opened LGLauncher
  import opened Protocol
  import opened ProtocolInvariant
  import opened ProtocolSafety
  import opened ProtocolTheorems
  import P = ProtocolProgress
  import Table = ProtocolTable

  predicate HasClose(q: seq<Event>) {
    exists k :: 0 <= k < |q| && q[k].NotifyClosed?
  }

  // A close has reached the session's queue, or the daemon still reads the socket and a close is in
  // it or the launcher lives.
  predicate CloseComes(l: Link) {
    HasClose(l.session.inbox) || (l.session.registered && (HasClose(l.up) || l.client.alive))
  }

  // While its bundle has not been handled, the session will be able to read it.
  predicate BundleLegible(r: Reader, l: Link) {
    l.granted.Some? && l.handled == 2 ==> Table.BundleRead(r, Table.NamesOf(l.client.core), l.granted.value).Some?
  }

  // The session thread is still in its loop and will get to the close: after a read error it takes
  // one more event, which is the close only when the bundle has been handled.
  predicate Recoverable(r: Reader, l: Link) {
    && l.session.looping && (l.session.running || l.handled == 3)
    && CloseComes(l) && BundleLegible(r, l)
  }

  ghost predicate FreedBy(r: Reader, s: State, steps: seq<Step>, g: nat) {
    CanRun(r, s, steps) && g < |Run(r, s, steps).slots| && Run(r, s, steps).slots[g].status == Idle
  }

  // Slot `g` is not idle, and connection `j` has it.
  predicate Taken(s: State, g: nat, j: nat) {
    g < |s.slots| == |s.owner| && j < |s.links| && s.owner[g] == Some(j) && s.slots[g].status != Idle
  }

  // Slot `g` is not idle, and nobody can give it back.
  predicate Lost(r: Reader, s: State, g: nat) {
    && g < |s.slots| == |s.owner| && s.slots[g].status != Idle
    && (s.owner[g].Some? ==> s.owner[g].value < |s.links| && !Recoverable(r, s.links[s.owner[g].value]))
  }

  /* ---- What is lost stays lost ---- */

  lemma HasCloseJoin(a: seq<Event>, b: seq<Event>)
    ensures HasClose(a + b) <==> HasClose(a) || HasClose(b)
  {
    forall k | 0 <= k < |a| ensures a[k] == (a + b)[k] {
    }
    forall k | 0 <= k < |b| ensures b[k] == (a + b)[|a| + k] {
    }
  }

  lemma HasCloseSplit(q: seq<Event>)
    requires q != []
    ensures HasClose(q) <==> q[0].NotifyClosed? || HasClose(q[1..])
  {
    assert q == [q[0]] + q[1..];
    HasCloseJoin([q[0]], q[1..]);
    assert [q[0]][0].NotifyClosed? ==> HasClose([q[0]]);
  }

  lemma CloseComesLater(r: Reader, l: Link, step: Step)
    requires LocalEnabled(r, l, step) && CloseComes(LocalMove(r, l, step))
    ensures CloseComes(l)
  {
    if step.UpDeliver? {
      HasCloseJoin(l.session.inbox, [l.up[0]]);
      HasCloseSplit(l.up);
      HasCloseSplit([l.up[0]]);
    }
  }

  lemma LocalMoveStaysLost(r: Reader, l: Link, step: Step)
    requires Sound(r) && LinkInv(l) && LocalEnabled(r, l, step) && !Recoverable(r, l)
    ensures !Recoverable(r, LocalMove(r, l, step))
  {
    LocalMoveInv(r, l, step);
    SessionFlagsFall(r, l, step);
    if CloseComes(LocalMove(r, l, step)) {
      CloseComesLater(r, l, step);
    }
  }

  lemma SessionFlagsFall(r: Reader, l: Link, step: Step)
    requires LocalEnabled(r, l, step)
    ensures var l' := LocalMove(r, l, step);
            (l'.session.running ==> l.session.running) && (l'.session.looping ==> l.session.looping)
  {
  }

  lemma HandlesClose(r: Reader, l: Link)
    requires LinkInv(l) && l.client.mode == Launch && SessionReady(r, l) && l.handled == 3
    ensures Recoverable(r, l)
  {
    NextMessage(l);
    HasCloseSplit(l.session.inbox);
  }

  // What a session makes of its connection when it takes the bundle.
  lemma BundleTaken(s: State, j: nat, e: Event)
    requires j < |s.links| && s.links[j].session.inbox != [] && e.ReqSetBundle?
    ensures var l, l' := s.links[j], SessionMove(s, j, e).links[j];
            && l'.session.running == l'.session.looping == l.session.running
            && l'.session.inbox == l.session.inbox[1..] && l'.session.registered == l.session.registered
            && l'.up == l.up && l'.client == l.client && l'.handled == l.handled + 1 && l'.granted == l.granted
  {
  }

  // A session that takes its bundle is as recoverable afterwards as before.
  lemma BundleKeepsRecoverable(r: Reader, s: State, j: nat)
    requires Sound(r) && Inv(s) && Enabled(r, s, SessionStep(j)) && Outstanding(s.links[j]) && s.links[j].handled == 2
    ensures Recoverable(r, Apply(r, s, SessionStep(j)).links[j]) <==> Recoverable(r, s.links[j])
    ensures Heard(r, s.links[j]).ReqSetBundle?
  {
    var l, e := s.links[j], Heard(r, s.links[j]);
    assert OwnsGrant(s, j);
    HeardMoves(r, s, j);
    BundleMove(s, j, e);
    BundleTaken(s, j, e);
    HasCloseSplit(l.session.inbox);
    NextMessage(l);
    Table.BundleHeard(r, l);
  }

  lemma TakenOutstanding(s: State, g: nat, j: nat)
    requires Inv(s) && Taken(s, g, j)
    ensures Outstanding(s.links[j]) && s.links[j].granted == Some(g) && s.links[j].client.mode == Launch
    ensures s.links[j].handled == 2 || s.links[j].handled == 3
  {
    assert SlotInv(s, g) && OwnsGrant(s, j) && LinkInv(s.links[j]);
  }

  // Only the owner's close gives a slot back.
  lemma OthersKeepTaken(r: Reader, s: State, step: Step, g: nat, j: nat)
    requires Sound(r) && Inv(s) && Enabled(r, s, step) && Taken(s, g, j)
    requires step == SessionStep(j) ==> s.links[j].handled != 3
    ensures Taken(Apply(r, s, step), g, j)
  {
    TakenOutstanding(s, g, j);
    StepInv(r, s, step);
    StaysOut(r, s, step, g, j);
    StaysOutstanding(r, s, step, j);
    assert OwnsGrant(Apply(r, s, step), j);
  }

  lemma StaysOut(r: Reader, s: State, step: Step, g: nat, j: nat)
    requires Sound(r) && Inv(s) && Enabled(r, s, step) && Taken(s, g, j)
    requires step == SessionStep(j) ==> s.links[j].handled != 3
    ensures g < |Apply(r, s, step).slots| && Apply(r, s, step).slots[g].status != Idle
  {
    if Apply(r, s, step).slots[g].status == Idle {
      FreeingSession(r, s, step, g);
    }
  }

  lemma StaysOutstanding(r: Reader, s: State, step: Step, j: nat)
    requires Sound(r) && Inv(s) && Enabled(r, s, step) && j < |s.links| && Outstanding(s.links[j])
    requires s.links[j].client.mode == Launch && (s.links[j].handled == 2 || s.links[j].handled == 3)
    requires step == SessionStep(j) ==> s.links[j].handled != 3
    ensures var t := Apply(r, s, step);
            j < |t.links| && Outstanding(t.links[j]) && t.links[j].granted == s.links[j].granted
  {
    if step == SessionStep(j) {
      BundleKeepsRecoverable(r, s, j);
      BundleTaken(s, j, Heard(r, s.links[j]));
    } else {
      ProgressStays(r, s, step, j);
    }
  }

  lemma OwnedStaysLost(r: Reader, s: State, step: Step, g: nat, j: nat)
    requires Sound(r) && Inv(s) && Enabled(r, s, step) && Taken(s, g, j) && !Recoverable(r, s.links[j])
    ensures Lost(r, Apply(r, s, step), g)
  {
    TakenOutstanding(s, g, j);
    if step == SessionStep(j) {
      if s.links[j].handled == 3 {
        HandlesClose(r, s.links[j]);
      }
      BundleKeepsRecoverable(r, s, j);
    } else {
      LostLink(r, s, step, j);
    }
    OthersKeepTaken(r, s, step, g, j);
  }

  lemma LostLink(r: Reader, s: State, step: Step, j: nat)
    requires Sound(r) && Enabled(r, s, step) && step != SessionStep(j) && j < |s.links|
    requires LinkInv(s.links[j]) && !Recoverable(r, s.links[j])
    ensures j < |Apply(r, s, step).links| && !Recoverable(r, Apply(r, s, step).links[j])
  {
    StepLink(r, s, step, j);
    if IsLocal(step) && step.i == j {
      LocalMoveStaysLost(r, s.links[j], step);
    }
  }

  lemma ShapeKeepsOwnerless(s: State, s': State, i: nat, e: Event, g: nat)
    requires SessionShape(s, s', i, e) && g < |s.slots| == |s.owner| && s.slots[g].status != Idle && s.owner[g] == None
    ensures s'.slots[g].status != Idle && s'.owner[g] == None
  {
  }

  lemma OwnerlessStaysLost(r: Reader, s: State, step: Step, g: nat)
    requires Sound(r) && Inv(s) && Enabled(r, s, step)
    requires g < |s.slots| && s.slots[g].status != Idle && s.owner[g] == None
    ensures Lost(r, Apply(r, s, step), g)
  {
    if step.SessionStep? {
      var e := Heard(r, s.links[step.i]);
      HeardMoves(r, s, step.i);
      SessionMoveShape(s, step.i, e);
      ShapeKeepsOwnerless(s, SessionMove(s, step.i, e), step.i, e, g);
    }
  }

  lemma StepStaysLost(r: Reader, s: State, step: Step, g: nat)
    requires Sound(r) && Inv(s) && Enabled(r, s, step) && Lost(r, s, g)
    ensures Lost(r, Apply(r, s, step), g)
  {
    match s.owner[g] {
      case None => OwnerlessStaysLost(r, s, step, g);
      case Some(j) => OwnedStaysLost(r, s, step, g, j);
    }
  }

  lemma {:induction false} LostStaysLost(r: Reader, s: State, steps: seq<Step>, g: nat)
    requires Sound(r) && Inv(s) && CanRun(r, s, steps) && Lost(r, s, g)
    ensures Lost(r, Run(r, s, steps), g)
    decreases |steps|
  {
    if steps != [] {
      StepStaysLost(r, s, steps[0], g);
      StepInv(r, s, steps[0]);
      LostStaysLost(r, Apply(r, s, steps[0]), steps[1..], g);
    }
  }

  /* ---- What is not lost can be freed ---- */

  // A step that brings the close nearer.
  function Next(l: Link, j: nat): Step {
    if l.session.inbox != [] then SessionStep(j)
    else if l.up != [] then UpDeliver(j)
    else if |l.sent| >= 3 then ExecStep(j)
    else if l.client.inbox != [] then ClientStep(j)
    else DownDeliver(j)
  }

  predicate InTransit(r: Reader, l: Link) {
    && LinkInv(l) && l.client.mode == Launch && Outstanding(l) && Recoverable(r, l)
    && (l.handled == 2 || l.handled == 3)
  }

  lemma NextDelivers(r: Reader, l: Link, j: nat)
    requires InTransit(r, l) && l.session.inbox == [] && l.up != []
    ensures Next(l, j) == UpDeliver(j) && LocalEnabled(r, l, UpDeliver(j))
    ensures Recoverable(r, LocalMove(r, l, UpDeliver(j)))
  {
    HasCloseJoin(l.session.inbox, [l.up[0]]);
    HasCloseSplit(l.up);
    HasCloseSplit([l.up[0]]);
  }

  lemma NextSends(r: Reader, l: Link, j: nat)
    requires Sound(r) && InTransit(r, l) && l.session.inbox == [] && l.up == []
    ensures IsLocal(Next(l, j)) && Next(l, j).i == j && LocalEnabled(r, l, Next(l, j))
    ensures Recoverable(r, LocalMove(r, l, Next(l, j)))
  {
    assert Pending(l) == [] && |l.sent| == l.handled;
    if l.client.inbox != [] {
      HeadReads(r, l);
    }
    LocalMoveInv(r, l, Next(l, j));
  }

  lemma HeadLegible(r: Reader, l: Link)
    requires Sound(r) && InTransit(r, l) && l.session.inbox != []
    ensures SessionReady(r, l)
  {
    NextMessage(l);
  }

  lemma NextIsEnabled(r: Reader, s: State, g: nat, j: nat)
    requires Sound(r) && Inv(s) && Taken(s, g, j) && Recoverable(r, s.links[j])
    ensures Enabled(r, s, Next(s.links[j], j)) && !Next(s.links[j], j).Connect?
  {
    var l := s.links[j];
    TakenOutstanding(s, g, j);
    if l.session.inbox != [] {
      HeadLegible(r, l);
    } else if l.up != [] {
      NextDelivers(r, l, j);
    } else {
      NextSends(r, l, j);
    }
  }

  lemma NextIsNearer(r: Reader, s: State, g: nat, j: nat)
    requires Sound(r) && Inv(s) && Taken(s, g, j) && Recoverable(r, s.links[j])
    requires s.links[j].session.inbox == [] || s.links[j].handled == 2
    requires Enabled(r, s, Next(s.links[j], j))
    ensures var t := Apply(r, s, Next(s.links[j], j)); Taken(t, g, j) && Recoverable(r, t.links[j])
  {
    var l := s.links[j];
    TakenOutstanding(s, g, j);
    OthersKeepTaken(r, s, Next(l, j), g, j);
    if l.session.inbox != [] {
      BundleKeepsRecoverable(r, s, j);
    } else {
      LocalIsNearer(r, s, j);
    }
  }

  lemma LocalIsNearer(r: Reader, s: State, j: nat)
    requires Sound(r) && j < |s.links| && InTransit(r, s.links[j]) && s.links[j].session.inbox == []
    requires Enabled(r, s, Next(s.links[j], j))
    ensures j < |Apply(r, s, Next(s.links[j], j)).links|
    ensures Recoverable(r, Apply(r, s, Next(s.links[j], j)).links[j])
  {
    StepLink(r, s, Next(s.links[j], j), j);
    if s.links[j].up != [] {
      NextDelivers(r, s.links[j], j);
    } else {
      NextSends(r, s.links[j], j);
    }
  }

  lemma CloseFrees(r: Reader, s: State, g: nat, j: nat)
    requires Sound(r) && Inv(s) && Taken(s, g, j) && Enabled(r, s, SessionStep(j)) && s.links[j].handled == 3
    ensures FreedBy(r, s, [SessionStep(j)], g) && NoConnects([SessionStep(j)])
  {
    TakenOutstanding(s, g, j);
    HeardMoves(r, s, j);
    CloseMove(s, j, Heard(r, s.links[j]));
    assert Run(r, s, [SessionStep(j)]) == SessionMove(s, j, Heard(r, s.links[j]));
  }

  lemma FreedLater(r: Reader, s: State, step: Step, rest: seq<Step>, g: nat)
    requires Enabled(r, s, step) && FreedBy(r, Apply(r, s, step), rest, g) && !step.Connect? && NoConnects(rest)
    ensures FreedBy(r, s, [step] + rest, g) && NoConnects([step] + rest)
  {
    RunStep(r, s, step, rest);
  }

  // One step nearer, and the budget is less.
  lemma Nearer(r: Reader, s: State, g: nat, j: nat)
    requires Sound(r) && Inv(s) && Taken(s, g, j) && Recoverable(r, s.links[j])
    requires s.links[j].session.inbox == [] || s.links[j].handled != 3
    ensures Enabled(r, s, Next(s.links[j], j)) && !Next(s.links[j], j).Connect?
    ensures var t := Apply(r, s, Next(s.links[j], j));
            Inv(t) && Taken(t, g, j) && Recoverable(r, t.links[j]) && P.Budget(t) < P.Budget(s)
  {
    TakenOutstanding(s, g, j);
    NextIsEnabled(r, s, g, j);
    NextIsNearer(r, s, g, j);
    P.StepSpends(r, s, Next(s.links[j], j));
    StepInv(r, s, Next(s.links[j], j));
  }

  lemma {:induction false} CanBeFreed(r: Reader, s: State, g: nat, j: nat) returns (steps: seq<Step>)
    requires Sound(r) && Inv(s) && Taken(s, g, j) && Recoverable(r, s.links[j])
    ensures FreedBy(r, s, steps, g) && NoConnects(steps)
    decreases P.Budget(s)
  {
    if s.links[j].session.inbox != [] && s.links[j].handled == 3 {
      NextIsEnabled(r, s, g, j);
      CloseFrees(r, s, g, j);
      steps := [SessionStep(j)];
    } else {
      Nearer(r, s, g, j);
      var step := Next(s.links[j], j);
      var rest := CanBeFreed(r, Apply(r, s, step), g, j);
      steps := [step] + rest;
      FreedLater(r, s, step, rest, g);
    }
  }

  /* ---- How a slot is lost ---- */

  // Connection `l` has its slot, and this step of it is the end of its recovery: the launcher crashes
  // before a close is under way, a read fails before the bundle is handled, a stopped session is woken up
  // before the close, or the daemon drops a stopped session that the close has not reached.
  predicate Loses(l: Link, step: Step) {
    match step
    case Crash(_) => l.client.alive && !HasClose(l.session.inbox) && !HasClose(l.up)
    case ReadError(_) => l.session.registered && l.session.running && l.handled == 2
    case SessionWake(_) => !l.session.running
    case Release(_) => l.session.registered && !l.session.running && !HasClose(l.session.inbox)
    case _ => false
  }

  lemma LosingIsEnabled(r: Reader, l: Link, step: Step)
    requires InTransit(r, l) && Loses(l, step)
    ensures LocalEnabled(r, l, step) && !Recoverable(r, LocalMove(r, l, step))
  {
  }

  lemma OtherMovesKeep(r: Reader, l: Link, step: Step)
    requires Sound(r) && InTransit(r, l) && LocalEnabled(r, l, step) && !Loses(l, step)
    ensures Recoverable(r, LocalMove(r, l, step))
  {
    LocalMoveInv(r, l, step);
    match step {
      case UpDeliver(_) =>
        HasCloseJoin(l.session.inbox, [l.up[0]]);
        HasCloseSplit(l.up);
        HasCloseSplit([l.up[0]]);
      case ClientStep(_) => HasCloseJoin(l.up, React(l.client.core, r(l.client.inbox[0], "").value).sends);
      case ExecStep(_) => HasCloseJoin(l.up, [CloseReport(l.client.core)]);
      case _ =>
    }
  }

  lemma LosesOwn(r: Reader, s: State, step: Step, g: nat, j: nat)
    requires Sound(r) && Inv(s) && Taken(s, g, j) && Recoverable(r, s.links[j])
    requires IsLocal(step) && step.i == j && Enabled(r, s, step)
    ensures Lost(r, Apply(r, s, step), g) <==> Loses(s.links[j], step)
  {
    TakenOutstanding(s, g, j);
    OthersKeepTaken(r, s, step, g, j);
    StepLink(r, s, step, j);
    if Loses(s.links[j], step) {
      LosingIsEnabled(r, s.links[j], step);
    } else {
      OtherMovesKeep(r, s.links[j], step);
    }
  }

  lemma LosesNothing(r: Reader, s: State, step: Step, g: nat, j: nat)
    requires Sound(r) && Inv(s) && Taken(s, g, j) && Recoverable(r, s.links[j])
    requires Enabled(r, s, step) && !(IsLocal(step) && step.i == j)
    requires step == SessionStep(j) ==> s.links[j].handled != 3
    ensures !Lost(r, Apply(r, s, step), g)
  {
    TakenOutstanding(s, g, j);
    OthersKeepTaken(r, s, step, g, j);
    StepLink(r, s, step, j);
    if step == SessionStep(j) {
      BundleKeepsRecoverable(r, s, j);
    }
  }

  lemma CloseIsNoLoss(r: Reader, s: State, g: nat, j: nat)
    requires Sound(r) && Inv(s) && Taken(s, g, j) && Enabled(r, s, SessionStep(j)) && s.links[j].handled == 3
    ensures !Lost(r, Apply(r, s, SessionStep(j)), g)
  {
    CloseFrees(r, s, g, j);
    assert Run(r, s, [SessionStep(j)]) == Apply(r, s, SessionStep(j));
  }

  // A slot that can still be given back is lost for good by one of four steps of its owner's connection,
  // each of which is possible whenever its condition holds, and by no other step of anyone.
  lemma LosesExactly(r: Reader, n: nat, steps: seq<Step>, step: Step, g: nat, j: nat)
    requires Runnable(r, n, steps) && Taken(Reached(r, n, steps), g, j)
    requires Recoverable(r, Reached(r, n, steps).links[j])
    ensures var s := Reached(r, n, steps);
            Enabled(r, s, step) && Lost(r, Apply(r, s, step), g)
            <==> IsLocal(step) && step.i == j && Loses(s.links[j], step)
  {
    var s := Reached(r, n, steps);
    ReachableInv(r, n, steps);
    TakenOutstanding(s, g, j);
    if IsLocal(step) && step.i == j {
      if Loses(s.links[j], step) {
        LosingIsEnabled(r, s.links[j], step);
      }
      if Enabled(r, s, step) {
        LosesOwn(r, s, step, g, j);
      }
    } else if Enabled(r, s, step) {
      if step == SessionStep(j) && s.links[j].handled == 3 {
        CloseIsNoLoss(r, s, g, j);
      } else {
        LosesNothing(r, s, step, g, j);
      }
    }
  }

  // A slot that is out can become idle again in some continuation exactly when it has an owner whose
  // connection is recoverable.
  lemma FreedAgainExactly(r: Reader, n: nat, steps: seq<Step>, g: nat)
    requires Runnable(r, n, steps)
    requires g < |Reached(r, n, steps).slots| && Reached(r, n, steps).slots[g].status != Idle
    ensures var s := Reached(r, n, steps);
            && |s.owner| == |s.slots|
            && ((exists more :: FreedBy(r, s, more, g))
                <==> s.owner[g].Some? && s.owner[g].value < |s.links| && Recoverable(r, s.links[s.owner[g].value]))
  {
    var s := Reached(r, n, steps);
    ReachableInv(r, n, steps);
    assert SlotInv(s, g);
    if s.owner[g].Some? && Recoverable(r, s.links[s.owner[g].value]) {
      var more := CanBeFreed(r, s, g, s.owner[g].value);
    } else {
      forall more | CanRun(r, s, more) ensures !FreedBy(r, s, more, g) {
        LostStaysLost(r, s, more, g);
      }
    }
  }
}
