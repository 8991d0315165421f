// What a launcher's process reports when it has stopped.

module ProtocolResult {
  import opened Wrappers
  import opened Events
  import opened VatSession
  import opened LGLauncher
  import opened Protocol
  import opened ProtocolInvariant
  import opened ProtocolSafety
  import T = ProtocolTheorems

  // What the session of connection `i` has answered in the run.
  function Replied(r: Reader, s: State, steps: seq<Step>, i: nat): seq<Event>
    requires CanRun(r, s, steps)
    decreases |steps|
  {
    if steps == [] then [] else RepliedIn(r, s, steps[0], i) + Replied(r, Apply(r, s, steps[0]), steps[1..], i)
  }

  function RepliedIn(r: Reader, s: State, step: Step, i: nat): seq<Event>
    requires Enabled(r, s, step)
  {
    if step == SessionStep(i) then Answer(s.links[i], s.slots, Heard(r, s.links[i])).replies else []
  }

  /* ---- The invariant on one connection ---- */

  // A launch is refused once, when it has asked last; the refusal is on its way, or it has stopped on it.
  predicate LaunchResult(l: Link, replied: seq<Event>) {
    var refused, waits := ResNotAvailable in replied, ResNotAvailable in Coming(l);
    && (waits ==> refused && l.client.core.running)
    && (refused && !waits ==> !l.client.core.running)
    && (refused ==> |l.sent| == l.handled && l.granted == None && 1 <= l.handled <= 2)
    && l.client.core.result == if refused && !waits then -1 else 0
  }

  predicate CloserResult(l: Link, replied: seq<Event>) {
    && l.client.core.result == 0
    && (Coming(l) != [] || !l.client.core.running ==>
          l.client.mode == CloseByName && NotifyCloseByNameNotified in replied)
  }

  predicate ResultInv(l: Link, replied: seq<Event>) {
    if l.client.mode == Launch then LaunchResult(l, replied) else CloserResult(l, replied)
  }

  // Nothing that the result depends on has changed.
  lemma SameResult(l: Link, l': Link, replied: seq<Event>)
    requires ResultInv(l, replied) && Coming(l') == Coming(l) && l'.client.mode == l.client.mode
    requires l'.client.core.running == l.client.core.running && l'.client.core.result == l.client.core.result
    requires l'.sent == l.sent && l'.handled == l.handled && l'.granted == l.granted
    ensures ResultInv(l', replied)
  {
  }

  // A launcher that was refused does not react to anything but the refusal.
  lemma RefusedWaits(l: Link, replied: seq<Event>)
    requires LinkInv(l) && ResultInv(l, replied) && CanReact(l) && l.client.mode == Launch
    ensures ResNotAvailable in replied ==> Coming(l) == [ResNotAvailable] && l.client.inbox[0] == ResNotAvailable
    ensures ResNotAvailable !in replied ==> l.client.inbox[0] != ResNotAvailable
  {
    assert Coming(l)[0] == l.client.inbox[0];
    assert l.client.inbox[0] in Coming(l);
    if ResNotAvailable in replied && l.client.core.running {
      assert |l.sent| <= 2;
      assert ResNotAvailable in Coming(l);
    }
  }

  lemma LaunchReacts(l: Link, replied: seq<Event>)
    requires LinkInv(l) && ResultInv(l, replied) && CanReact(l) && l.client.mode == Launch
    ensures ResultInv(Reacts(l, l.client.inbox[0]), replied)
  {
    RefusedWaits(l, replied);
    ReactsQueues(l);
    if ResNotAvailable !in replied {
      assert forall e :: e in Coming(l)[1..] ==> e in Coming(l);
      LaunchHears(l);
    }
  }

  lemma LaunchHears(l: Link)
    requires LinkInv(l) && CanReact(l) && l.client.mode == Launch
    ensures var e := l.client.inbox[0]; e.ResNotAvailable? || e.ResCheck? || e.ResIdleSlot? || e.NotifyAppDied?
  {
    assert Coming(l)[0] == l.client.inbox[0];
  }

  lemma CloserReactsResult(l: Link, replied: seq<Event>)
    requires LinkInv(l) && ResultInv(l, replied) && CanReact(l) && l.client.mode != Launch
    ensures ResultInv(Reacts(l, l.client.inbox[0]), replied)
  {
    ReactsQueues(l);
    assert Coming(l) == [NotifyCloseByNameNotified];
  }

  lemma ExecResult(l: Link, replied: seq<Event>)
    requires LinkInv(l) && ResultInv(l, replied) && l.client.exec != NotStarted && l.client.exec != Done
    ensures ResultInv(ExecMove(l), replied)
  {
    assert l.client.mode == Launch && |l.sent| >= 3;
    assert Coming(ExecMove(l)) == Coming(l);
  }

  lemma LocalResult(r: Reader, l: Link, step: Step, replied: seq<Event>)
    requires Sound(r) && LinkInv(l) && ResultInv(l, replied) && LocalEnabled(r, l, step)
    ensures ResultInv(LocalMove(r, l, step), replied)
  {
    if step.ClientStep? {
      HeadReads(r, l);
      if l.client.mode == Launch {
        LaunchReacts(l, replied);
      } else {
        CloserReactsResult(l, replied);
      }
    } else if step.ExecStep? {
      ExecResult(l, replied);
    } else {
      if step.DownDeliver? {
        DeliverKeepsOrder(l.client.inbox, l.down);
      }
      SameResult(l, LocalMove(r, l, step), replied);
    }
  }

  lemma TellResult(l: Link, replied: seq<Event>)
    requires LinkInv(l) && ResultInv(l, replied) && l.session.slotId > -1
    ensures ResultInv(Tell(l), replied)
  {
    assert Coming(Tell(l)) == Coming(l) + [NotifyAppDied(l.session.slotId)];
  }

  /* ---- The session's answers ---- */

  // The answer to CHECK and GET_IDLE is one message, and the launcher waits for it.
  lemma AskedResult(l: Link, o: Outcome, replied: seq<Event>)
    requires LinkInv(l) && l.session.inbox != [] && ResultInv(l, replied) && l.client.mode == Launch
    requires |l.sent| == l.handled + 1 && l.handled < 2 && Coming(l) == []
    requires LinkInv(Answered(l, o)) && |o.replies| == 1 && Coming(Answered(l, o)) == Coming(l) + o.replies
    requires o.replies == [ResNotAvailable] ==> Answered(l, o).granted == None
    ensures ResultInv(Answered(l, o), replied + o.replies)
  {
    assert Coming(Answered(l, o)) == o.replies;
    assert Waiting(l.client);
  }

  lemma QuietResult(l: Link, o: Outcome, replied: seq<Event>)
    requires ResultInv(l, replied) && l.session.inbox != [] && l.client.mode == Launch && l.handled >= 2
    requires o.replies == [] && l.handled < |l.sent| && Coming(Answered(l, o)) == Coming(l) + o.replies
    ensures ResultInv(Answered(l, o), replied + o.replies)
  {
    assert replied + [] == replied;
    assert Coming(Answered(l, o)) == Coming(l);
  }

  lemma CloserAnswerResult(l: Link, o: Outcome, replied: seq<Event>)
    requires ResultInv(l, replied) && l.session.inbox != [] && l.client.mode != Launch
    requires o.replies == [] || (l.client.mode == CloseByName && o.replies == [NotifyCloseByNameNotified])
    requires Coming(Answered(l, o)) == Coming(l) + o.replies
    ensures ResultInv(Answered(l, o), replied + o.replies)
  {
    if o.replies == [] {
      assert Coming(Answered(l, o)) == Coming(l);
    }
    assert o.replies != [] ==> o.replies[0] in replied + o.replies;
  }

  lemma CheckResult(s: State, i: nat, e: Event, replied: seq<Event>)
    requires Moves(s, i, e) && ResultInv(s.links[i], replied) && s.links[i].client.mode == Launch
    requires s.links[i].handled == 0
    ensures ResultInv(SessionMove(s, i, e).links[i], replied + Answer(s.links[i], s.slots, e).replies)
  {
    var l, o := s.links[i], Answer(s.links[i], s.slots, e);
    NextMessage(l);
    LaunchMessage(l, e);
    CheckOutcomes(l.session.running, l.session.slotId, s.slots, e);
    AnsweredQueues(l, o);
    CheckingAnswered(l, o);
    AskedResult(l, o, replied);
  }

  lemma RequestResult(s: State, i: nat, e: Event, replied: seq<Event>)
    requires Moves(s, i, e) && ResultInv(s.links[i], replied) && s.links[i].client.mode == Launch
    requires s.links[i].handled == 1
    ensures ResultInv(SessionMove(s, i, e).links[i], replied + Answer(s.links[i], s.slots, e).replies)
  {
    var l, o := s.links[i], Answer(s.links[i], s.slots, e);
    NextMessage(l);
    LaunchMessage(l, e);
    RequestOutcomes(l.session.running, l.session.slotId, s.slots, e);
    AnsweredQueues(l, o);
    RequestingAnswered(l, o);
    AskedResult(l, o, replied);
  }

  lemma LaterResult(s: State, i: nat, e: Event, replied: seq<Event>)
    requires Moves(s, i, e) && ResultInv(s.links[i], replied) && s.links[i].client.mode == Launch
    requires s.links[i].handled >= 2
    ensures ResultInv(SessionMove(s, i, e).links[i], replied + Answer(s.links[i], s.slots, e).replies)
  {
    var l, o := s.links[i], Answer(s.links[i], s.slots, e);
    NextMessage(l);
    LaunchMessage(l, e);
    QuietOutcomes(l.session.running, l.session.slotId, s.slots, e);
    AnsweredQueues(l, o);
    QuietResult(l, o, replied);
  }

  lemma AnswerResult(s: State, i: nat, e: Event, replied: seq<Event>)
    requires Moves(s, i, e) && ResultInv(s.links[i], replied)
    ensures ResultInv(SessionMove(s, i, e).links[i], replied + Answer(s.links[i], s.slots, e).replies)
  {
    var l := s.links[i];
    if l.client.mode == Launch {
      if l.handled == 0 {
        CheckResult(s, i, e, replied);
      } else if l.handled == 1 {
        RequestResult(s, i, e, replied);
      } else {
        LaterResult(s, i, e, replied);
      }
    } else {
      CloserMessage(l, e);
      NextMessage(l);
      CloserOutcomes(l.session.running, l.session.slotId, s.slots, e);
      AnsweredQueues(l, Answer(l, s.slots, e));
      CloserAnswerResult(l, Answer(l, s.slots, e), replied);
    }
  }

  /* ---- Over all runs ---- */

  // Connection `i`, if there is one yet, has its result; if there is none, nothing was answered on it.
  predicate ResultAt(s: State, i: nat, replied: seq<Event>) {
    if i < |s.links| then ResultInv(s.links[i], replied) else replied == []
  }

  lemma LinkResult(r: Reader, s: State, step: Step, i: nat, replied: seq<Event>)
    requires Sound(r) && Inv(s) && Enabled(r, s, step) && i < |s.links| && ResultInv(s.links[i], replied)
    requires step != SessionStep(i)
    ensures i < |Apply(r, s, step).links| && ResultInv(Apply(r, s, step).links[i], replied)
  {
    StepLink(r, s, step, i);
    if IsLocal(step) && step.i == i {
      LocalResult(r, s.links[i], step, replied);
    } else if step == GlobalStep(Some(i)) {
      ToldHasSlot(r, s, i);
      TellResult(s.links[i], replied);
    }
  }

  lemma StepResult(r: Reader, s: State, step: Step, i: nat, replied: seq<Event>)
    requires Sound(r) && Inv(s) && Enabled(r, s, step) && ResultAt(s, i, replied)
    ensures ResultAt(Apply(r, s, step), i, replied + RepliedIn(r, s, step, i))
  {
    if step == SessionStep(i) {
      HeardMoves(r, s, i);
      AnswerResult(s, i, Heard(r, s.links[i]), replied);
    } else {
      assert replied + [] == replied;
      if i < |s.links| {
        LinkResult(r, s, step, i, replied);
      } else if i < |Apply(r, s, step).links| {
        FreshResult(step);
      }
    }
  }

  lemma ToldHasSlot(r: Reader, s: State, i: nat)
    requires Enabled(r, s, GlobalStep(Some(i)))
    ensures s.links[i].session.slotId > -1
  {
  }

  lemma FreshResult(step: Step)
    requires step.Connect?
    ensures ResultInv(Fresh(step.mode, step.appname, step.pkgname, step.activity), [])
  {
  }

  lemma Regroup(a: seq<Event>, b: seq<Event>, c: seq<Event>)
    ensures a + (b + c) == (a + b) + c
  {
  }

  lemma {:induction false} RunResult(r: Reader, s: State, steps: seq<Step>, i: nat, replied: seq<Event>)
    requires Sound(r) && Inv(s) && CanRun(r, s, steps) && ResultAt(s, i, replied)
    ensures ResultAt(Run(r, s, steps), i, replied + Replied(r, s, steps, i))
    decreases |steps|
  {
    if steps == [] {
      assert replied + [] == replied;
    } else {
      StepResult(r, s, steps[0], i, replied);
      StepInv(r, s, steps[0]);
      RunResult(r, Apply(r, s, steps[0]), steps[1..], i, replied + RepliedIn(r, s, steps[0], i));
      Regroup(replied, RepliedIn(r, s, steps[0], i), Replied(r, Apply(r, s, steps[0]), steps[1..], i));
    }
  }

  // A launcher that has stopped reports a failure exactly if it was to launch and its session answered
  // that no slot is available; while it runs, and in all other cases, its result is 0. One that asks for
  // a close by name stops only when its session has said that the request was passed on, and in this
  // build one that asks to close the application opened last is never answered.
  lemma ResultExactly(r: Reader, n: nat, steps: seq<Step>, i: nat)
    requires T.Runnable(r, n, steps) && i < |T.Reached(r, n, steps).links|
    ensures var c, replied := T.Reached(r, n, steps).links[i].client, Replied(r, Init(n), steps, i);
            && c.core.result == (if c.mode == Launch && !c.core.running && ResNotAvailable in replied then -1 else 0)
            && (c.mode == CloseByName && !c.core.running ==> NotifyCloseByNameNotified in replied)
            && (c.mode == CloseLastOpened ==> c.core.running)
  {
    InitInv(n);
    RunResult(r, Init(n), steps, i, []);
    assert [] + Replied(r, Init(n), steps, i) == Replied(r, Init(n), steps, i);
    ReachableInv(r, n, steps);
  }
}
