// Runs come to rest, and then a slot is still out only when the connection of its owner was disturbed.

module ProtocolCalm {
  import opened Wrappers
  import opened Events
  import opened Slots
  import opened VatSession
  import opened LGLauncher
  import opened Protocol
  import opened ProtocolInvariant
  import opened ProtocolSafety
  import opened ProtocolCheck
  import P = ProtocolProgress
  import R = ProtocolRecovery
  import T = ProtocolTheorems
  import Table = ProtocolTable

  predicate Breaks(step: Step) { step.Crash? || step.ReadError? }

  // The launcher of connection `i` crashes, or the daemon fails to read from it.
  predicate Disturbed(steps: seq<Step>, i: nat) { Crash(i) in steps || ReadError(i) in steps }

  // Nothing is left to do until somebody connects or something breaks.
  ghost predicate AtRest(r: Reader, s: State) {
    forall step :: Enabled(r, s, step) ==> step.Connect? || Breaks(step)
  }

  // The launcher lives, and the session runs, on the daemon's map, until it has handled the close or
  // refused the launch.
  predicate CalmLink(l: Link) {
    && l.client.alive
    && (l.session.registered || !l.session.running)
    && (l.client.mode == Launch && !l.session.running ==> l.handled == 4 || Settled(l))
  }

  predicate CalmAt(s: State, i: nat) { i < |s.links| ==> CalmLink(s.links[i]) }

  // A step of the connection that leaves its session's record alone.
  lemma SameCalm(r: Reader, l: Link, step: Step)
    requires CalmLink(l) && LocalEnabled(r, l, step) && !Breaks(step)
    requires SameRecord(l, LocalMove(r, l, step)) && (Settled(l) ==> Settled(LocalMove(r, l, step)))
    ensures CalmLink(LocalMove(r, l, step))
  {
    assert LocalMove(r, l, step).session.running == l.session.running;
  }

  lemma LocalMoveCalm(r: Reader, l: Link, step: Step)
    requires Sound(r) && LinkInv(l) && CalmLink(l) && LocalEnabled(r, l, step) && !Breaks(step)
    ensures CalmLink(LocalMove(r, l, step))
  {
    LocalMoveInv(r, l, step);
    if Settled(l) {
      LocalMoveSettled(r, l, step);
    }
    SameCalm(r, l, step);
  }

  lemma CheckCalm(s: State, i: nat, e: Event)
    requires Moves(s, i, e) && CalmLink(s.links[i]) && s.links[i].client.mode == Launch && s.links[i].handled == 0
    ensures CalmLink(SessionMove(s, i, e).links[i])
  {
    var l := s.links[i];
    CheckMove(s, i, e);
    CheckIsExact(l.session.running, l.session.slotId, s.slots, e.appname, e.activity);
    if !Launchable(s.slots, e.activity) {
      CheckSettles(s, i, e);
    }
  }

  lemma StillRunning(l: Link)
    requires LinkInv(l) && CalmLink(l) && l.client.mode == Launch && l.handled < 4
    requires l.session.looping && l.session.inbox != []
    ensures l.session.running
  {
    if Settled(l) {
      SettledQueues(l);
    }
  }

  // A session of a launch runs on after GET_IDLE and SET_BUNDLE.
  lemma MiddleCalm(s: State, i: nat, e: Event)
    requires i < |s.links| && s.links[i].session.inbox != [] && (e.ReqGetIdle? || e.ReqSetBundle?)
    requires CalmLink(s.links[i]) && s.links[i].session.running
    ensures CalmLink(SessionMove(s, i, e).links[i])
  {
    assert SessionMove(s, i, e).links[i].session.running;
  }

  // Of a request to close nothing is asked but that it is on the map while it runs.
  lemma CloserCalm(s: State, i: nat, e: Event)
    requires i < |s.links| && s.links[i].session.inbox != [] && s.links[i].client.mode != Launch
    requires (e.ReqCloseByName? || e.ReqCloseLastOpened?) && CalmLink(s.links[i])
    ensures CalmLink(SessionMove(s, i, e).links[i])
  {
  }

  lemma CloseCalm(s: State, i: nat, e: Event)
    requires i < |s.links| && s.links[i].session.inbox != [] && e.NotifyClosed? && s.links[i].handled == 3
    requires CalmLink(s.links[i])
    ensures CalmLink(SessionMove(s, i, e).links[i])
  {
  }

  lemma LaunchCalm(s: State, i: nat, e: Event)
    requires Moves(s, i, e) && CalmLink(s.links[i]) && s.links[i].client.mode == Launch
    ensures CalmLink(SessionMove(s, i, e).links[i])
  {
    var l := s.links[i];
    NextMessage(l);
    LaunchMessage(l, e);
    if l.handled == 0 {
      CheckCalm(s, i, e);
    } else if l.handled < 3 {
      StillRunning(l);
      MiddleCalm(s, i, e);
    } else {
      CloseCalm(s, i, e);
    }
  }

  lemma AnswerCalm(s: State, i: nat, e: Event)
    requires Moves(s, i, e) && CalmLink(s.links[i])
    ensures CalmLink(SessionMove(s, i, e).links[i])
  {
    if s.links[i].client.mode == Launch {
      LaunchCalm(s, i, e);
    } else {
      CloserMessage(s.links[i], e);
      CloserCalm(s, i, e);
    }
  }

  lemma TellCalm(l: Link)
    requires CalmLink(l)
    ensures CalmLink(Tell(l))
  {
    if Settled(l) {
      TellSettled(l);
    }
  }

  // Whatever the step, connection `i` stays calm unless the step breaks this connection.
  lemma LinkCalm(r: Reader, s: State, step: Step, i: nat)
    requires Sound(r) && Inv(s) && Enabled(r, s, step) && i < |s.links| && CalmLink(s.links[i])
    requires !Disturbed([step], i)
    ensures i < |Apply(r, s, step).links| && CalmLink(Apply(r, s, step).links[i])
  {
    StepLink(r, s, step, i);
    if IsLocal(step) && step.i == i {
      NoBreak(step, i);
      LocalMoveCalm(r, s.links[i], step);
    } else if step == SessionStep(i) {
      SessionCalm(r, s, i);
    } else if step == GlobalStep(Some(i)) {
      TellCalm(s.links[i]);
    }
  }

  lemma NoBreak(step: Step, i: nat)
    requires !Disturbed([step], i)
    ensures step != Crash(i) && step != ReadError(i)
  {
    assert [step][0] == step;
  }

  lemma SessionCalm(r: Reader, s: State, i: nat)
    requires Sound(r) && Inv(s) && Enabled(r, s, SessionStep(i)) && CalmLink(s.links[i])
    ensures CalmLink(Apply(r, s, SessionStep(i)).links[i])
  {
    HeardMoves(r, s, i);
    AnswerCalm(s, i, Heard(r, s.links[i]));
  }

  lemma StepCalm(r: Reader, s: State, step: Step, i: nat)
    requires Sound(r) && Inv(s) && CalmAt(s, i) && Enabled(r, s, step) && !Disturbed([step], i)
    ensures CalmAt(Apply(r, s, step), i)
  {
    var s' := Apply(r, s, step);
    if i < |s.links| {
      LinkCalm(r, s, step, i);
    } else if i < |s'.links| {
      assert s'.links[i] == Fresh(step.mode, step.appname, step.pkgname, step.activity);
    }
  }

  lemma {:induction false} RunCalm(r: Reader, s: State, steps: seq<Step>, i: nat)
    requires Sound(r) && Inv(s) && CalmAt(s, i) && CanRun(r, s, steps) && !Disturbed(steps, i)
    ensures CalmAt(Run(r, s, steps), i)
    decreases |steps|
  {
    if steps != [] {
      assert forall step :: step in [steps[0]] || step in steps[1..] ==> step in steps;
      StepCalm(r, s, steps[0], i);
      StepInv(r, s, steps[0]);
      RunCalm(r, Apply(r, s, steps[0]), steps[1..], i);
    }
  }

  // A launcher that has a slot always has a next move.
  function NextMove(l: Link, i: nat): Step {
    if l.up != [] then UpDeliver(i)
    else if l.down != [] then DownDeliver(i)
    else if |l.sent| >= 3 then ExecStep(i)
    else ClientStep(i)
  }

  lemma HolderRuns(l: Link)
    requires LinkInv(l) && CalmLink(l) && l.client.mode == Launch && Outstanding(l)
    ensures l.session.looping && l.session.registered
  {
  }

  lemma HolderMoves(r: Reader, l: Link, i: nat)
    requires Sound(r) && LinkInv(l) && CalmLink(l) && l.client.mode == Launch && Outstanding(l)
    requires l.session.inbox == []
    ensures LocalEnabled(r, l, NextMove(l, i))
  {
    HolderRuns(l);
    if l.up == [] && l.down == [] {
      assert Pending(l) == [] && |l.sent| == l.handled;
      if |l.sent| < 3 {
        HeadReads(r, l);
      }
    }
  }

  lemma HolderReads(r: Reader, l: Link)
    requires Sound(r) && LinkInv(l) && CalmLink(l) && l.client.mode == Launch && Outstanding(l)
    requires l.session.inbox != [] && R.BundleLegible(r, l)
    ensures SessionReady(r, l)
  {
    HolderRuns(l);
    NextMessage(l);
  }

  lemma RestHasNoHolder(r: Reader, s: State, i: nat)
    requires Sound(r) && Inv(s) && AtRest(r, s) && i < |s.links| && CalmLink(s.links[i])
    requires R.BundleLegible(r, s.links[i])
    ensures !Outstanding(s.links[i])
  {
    var l := s.links[i];
    assert OwnsGrant(s, i);
    if Outstanding(l) {
      if l.session.inbox == [] {
        HolderMoves(r, l, i);
        assert Enabled(r, s, NextMove(l, i));
      } else {
        HolderReads(r, l);
        assert Enabled(r, s, SessionStep(i));
      }
    }
  }

  // When a run has come to rest, the owner of a slot is one whose launcher crashed, from which a read
  // failed, or whose bundle cannot be read; and where no bundle strays, every other slot is idle.
  lemma EverySlotIsFreed(r: Reader, n: nat, steps: seq<Step>, g: nat)
    requires T.Runnable(r, n, steps) && AtRest(r, T.Reached(r, n, steps)) && g < n
    ensures var s := T.Reached(r, n, steps);
            && g < |s.slots| == |s.owner|
            && (s.owner[g].Some? ==>
                  && s.owner[g].value < |s.links|
                  && (Disturbed(steps, s.owner[g].value) || !R.BundleLegible(r, s.links[s.owner[g].value])))
            && (Table.AllLaunch(steps, Table.Straight(r, n)) ==> (s.slots[g].status == Idle <==> s.owner[g] == None))
  {
    var s := T.Reached(r, n, steps);
    ReachableInv(r, n, steps);
    assert SlotInv(s, g);
    if s.owner[g].Some? && !Disturbed(steps, s.owner[g].value) {
      var i := s.owner[g].value;
      InitInv(n);
      RunCalm(r, Init(n), steps, i);
      if R.BundleLegible(r, s.links[i]) {
        RestHasNoHolder(r, s, i);
      }
    }
    if Table.AllLaunch(steps, Table.Straight(r, n)) {
      Table.ReachableExact(r, n, steps);
      assert Table.SlotExact(r, s, g);
    }
  }

  // So nothing is lost when nothing broke on the way of a launch that got a slot.
  lemma NothingIsLost(r: Reader, n: nat, steps: seq<Step>)
    requires Table.StraightRun(r, n, steps) && AtRest(r, T.Reached(r, n, steps))
    requires var s := T.Reached(r, n, steps);
             forall i :: 0 <= i < |s.links| && s.links[i].granted.Some? ==>
               !Disturbed(steps, i) && R.BundleLegible(r, s.links[i])
    ensures var s := T.Reached(r, n, steps);
            && |s.slots| == n && s.grants == s.closes
            && forall g :: 0 <= g < n ==> s.slots[g].status == Idle
  {
    var s := T.Reached(r, n, steps);
    Table.ReachableExact(r, n, steps);
    forall g | 0 <= g < n ensures s.slots[g].status == Idle {
      EverySlotIsFreed(r, n, steps, g);
      assert SlotInv(s, g);
    }
    AllIdleBusy(s.slots);
  }

  // At rest nobody is stuck: sessions that have stopped have left their loops and the daemon's map,
  // launchers that have stopped have left theirs, no viewer thread is under way, nothing is left in a
  // socket, and a session leaves a message in its queue only if it cannot be read.
  predicate Left(r: Reader, l: Link) {
    && (l.session.looping ==> l.session.running) && (l.session.registered ==> l.session.running && l.up == [])
    && (l.session.looping && l.session.inbox != [] ==> !SessionReady(r, l))
    && (l.client.alive ==>
          && (l.client.looping ==> l.client.core.running && l.client.inbox == [])
          && l.down == [] && (l.client.exec == NotStarted || l.client.exec == Done))
  }

  lemma NobodyIsStuck(r: Reader, n: nat, steps: seq<Step>, i: nat)
    requires T.Runnable(r, n, steps) && AtRest(r, T.Reached(r, n, steps)) && i < |T.Reached(r, n, steps).links|
    ensures Left(r, T.Reached(r, n, steps).links[i])
  {
    var s := T.Reached(r, n, steps);
    ReachableInv(r, n, steps);
    RestLeaves(r, s, i);
  }

  lemma RestLeaves(r: Reader, s: State, i: nat)
    requires Sound(r) && Inv(s) && AtRest(r, s) && i < |s.links|
    ensures Left(r, s.links[i])
  {
    var l := s.links[i];
    assert !Enabled(r, s, SessionWake(i)) && !Enabled(r, s, Release(i)) && !Enabled(r, s, UpDeliver(i));
    assert !Enabled(r, s, SessionStep(i)) && !Enabled(r, s, ClientWake(i)) && !Enabled(r, s, DownDeliver(i));
    assert !Enabled(r, s, ExecStep(i)) && !Enabled(r, s, ClientStep(i));
    if l.client.inbox != [] {
      HeadReads(r, l);
    }
  }

  // And every state can come to rest, without a new connection and within the budget that it has.
  lemma {:induction false} ComesToRest(r: Reader, s: State) returns (steps: seq<Step>)
    requires Sound(r)
    ensures CanRun(r, s, steps) && AtRest(r, Run(r, s, steps)) && |steps| <= P.Budget(s)
    ensures forall k :: 0 <= k < |steps| ==> !steps[k].Connect? && !Breaks(steps[k])
    decreases P.Budget(s)
  {
    if AtRest(r, s) {
      steps := [];
    } else {
      var step :| Enabled(r, s, step) && !step.Connect? && !Breaks(step);
      P.StepSpends(r, s, step);
      var rest := ComesToRest(r, Apply(r, s, step));
      steps := [step] + rest;
      assert steps[1..] == rest;
    }
  }
}
