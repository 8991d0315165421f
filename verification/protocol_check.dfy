// What the answer to CHECK decides for the rest of a launch.

module ProtocolCheck {
  import opened Wrappers
  import opened Events
  import opened Slots
  import opened VatSession
  import opened LGLauncher
  import opened Protocol
  import opened ProtocolInvariant
  import opened ProtocolSafety
  import T = ProtocolTheorems

  // CHECK has been answered with something else than "not running, and a slot is idle", and the
  // launcher has sent nothing since.
  predicate Settled(l: Link) {
    l.client.mode == Launch && |l.sent| == 1 && l.handled == 1 && ResCheck(-1) !in Coming(l)
  }

  lemma SettledQueues(l: Link)
    requires LinkInv(l) && Settled(l)
    ensures l.session.inbox == [] && l.up == [] && l.client.exec == NotStarted
    ensures CanReact(l) ==> React(l.client.core, l.client.inbox[0]).sends == []
  {
    assert Pending(l) == [];
    if CanReact(l) {
      assert Coming(l)[0] == l.client.inbox[0];
      assert l.client.inbox[0] in Coming(l);
    }
  }

  lemma ReactsSettled(l: Link)
    requires LinkInv(l) && Settled(l) && CanReact(l)
    ensures Settled(Reacts(l, l.client.inbox[0]))
  {
    SettledQueues(l);
    ReactsQueues(l);
    assert forall e :: e in Coming(l)[1..] ==> e in Coming(l);
  }

  lemma LocalMoveSettled(r: Reader, l: Link, step: Step)
    requires Sound(r) && LinkInv(l) && Settled(l) && LocalEnabled(r, l, step)
    ensures Settled(LocalMove(r, l, step))
  {
    SettledQueues(l);
    if step.ClientStep? {
      HeadReads(r, l);
      ReactsSettled(l);
    } else {
      QuietSettled(r, l, step);
    }
  }

  lemma QuietSettled(r: Reader, l: Link, step: Step)
    requires Settled(l) && LocalEnabled(r, l, step) && !step.ClientStep? && l.client.exec == NotStarted
    ensures Settled(LocalMove(r, l, step))
  {
    if step.DownDeliver? {
      DeliverKeepsOrder(l.client.inbox, l.down);
    }
    assert Coming(LocalMove(r, l, step)) == Coming(l);
  }

  lemma TellSettled(l: Link)
    requires Settled(l)
    ensures Settled(Tell(l))
  {
    assert Coming(Tell(l)) == Coming(l) + [NotifyAppDied(l.session.slotId)];
  }

  lemma StepSettled(r: Reader, s: State, step: Step, i: nat)
    requires Sound(r) && Enabled(r, s, step) && i < |s.links| && LinkInv(s.links[i]) && Settled(s.links[i])
    ensures i < |Apply(r, s, step).links| && Settled(Apply(r, s, step).links[i])
  {
    var l := s.links[i];
    SettledQueues(l);
    StepLink(r, s, step, i);
    if IsLocal(step) && step.i == i {
      LocalMoveSettled(r, l, step);
    } else if step == GlobalStep(Some(i)) {
      TellSettled(l);
    }
  }

  lemma {:induction false} RunSettled(r: Reader, s: State, steps: seq<Step>, i: nat)
    requires Sound(r) && Inv(s) && CanRun(r, s, steps) && i < |s.links| && Settled(s.links[i])
    ensures i < |Run(r, s, steps).links| && Settled(Run(r, s, steps).links[i])
    decreases |steps|
  {
    if steps != [] {
      StepSettled(r, s, steps[0], i);
      StepInv(r, s, steps[0]);
      RunSettled(r, Apply(r, s, steps[0]), steps[1..], i);
    }
  }

  // Nobody uses the activity, and some slot is idle.
  predicate Launchable(slots: seq<Slot>, activity: string) {
    && (forall k :: 0 <= k < |slots| ==> !Runs(slots[k], activity))
    && exists k :: 0 <= k < |slots| && slots[k].status == Idle
  }

  lemma CheckAnswered(l: Link, slots: seq<Slot>, e: Event)
    requires Takes(l, e) && l.client.mode == Launch && l.handled == 0 && |slots| < MAX_SLOTS
    ensures |l.sent| == 1 && e.ReqCheck? && Coming(Answered(l, Answer(l, slots, e))) == Answer(l, slots, e).replies
  {
    LaunchMessage(l, e);
    NextMessage(l);
    CheckOutcomes(l.session.running, l.session.slotId, slots, e);
    AnsweredQueues(l, Answer(l, slots, e));
    assert |l.sent| == 1 && Coming(l) == [];
  }

  lemma CheckSettles(s: State, i: nat, e: Event)
    requires Moves(s, i, e) && s.links[i].client.mode == Launch && s.links[i].handled == 0
    requires e.ReqCheck? ==> !Launchable(s.slots, e.activity)
    ensures Settled(SessionMove(s, i, e).links[i])
  {
    var l := s.links[i];
    CheckAnswered(l, s.slots, e);
    CheckIsExact(l.session.running, l.session.slotId, s.slots, e.appname, e.activity);
  }

  // A launcher ever asks for a slot only if, when its CHECK was handled, no used slot ran the activity
  // that its session read and some slot was idle, whatever happens before and after.
  lemma AsksOnlyIfLaunchable(r: Reader, n: nat, before: seq<Step>, i: nat, after: seq<Step>)
    requires T.Runnable(r, n, before)
    requires var s := T.Reached(r, n, before);
             && Enabled(r, s, SessionStep(i)) && s.links[i].client.mode == Launch && s.links[i].handled == 0
             && CanRun(r, Apply(r, s, SessionStep(i)), after)
    ensures var s := T.Reached(r, n, before);
            var t := Run(r, Apply(r, s, SessionStep(i)), after);
            && Heard(r, s.links[i]).ReqCheck? && i < |t.links|
            && (|t.links[i].sent| > 1 ==> Launchable(s.slots, Heard(r, s.links[i]).activity))
  {
    var s := T.Reached(r, n, before);
    var e := Heard(r, s.links[i]);
    ReachableInv(r, n, before);
    HeardMoves(r, s, i);
    CheckMove(s, i, e);
    StepInv(r, s, SessionStep(i));
    LinksStay(r, Apply(r, s, SessionStep(i)), after, i);
    if !Launchable(s.slots, e.activity) {
      CheckSettles(s, i, e);
      RunSettled(r, Apply(r, s, SessionStep(i)), after, i);
    }
  }

  lemma {:induction false} LinksStay(r: Reader, s: State, steps: seq<Step>, i: nat)
    requires CanRun(r, s, steps) && i < |s.links|
    ensures i < |Run(r, s, steps).links|
    decreases |steps|
  {
    if steps != [] {
      LinksStay(r, Apply(r, s, steps[0]), steps[1..], i);
    }
  }
}
