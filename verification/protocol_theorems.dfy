// The promises of the launch protocol that hold for every number of slots, every run and every name,
// however names are read.

module ProtocolTheorems {
  import opened Wrappers
  import opened Events
  import opened Slots
  import opened VatSession
  import opened LGLauncher
  import opened Protocol
  import opened ProtocolInvariant
  import opened ProtocolSafety

  // The state that a daemon with `n` slots reaches by these steps.
  function Reached(r: Reader, n: nat, steps: seq<Step>): State
    requires CanRun(r, Init(n), steps)
  {
    Run(r, Init(n), steps)
  }

  // The steps are a run of a daemon with `n` slots.
  ghost predicate Runnable(r: Reader, n: nat, steps: seq<Step>) {
    Sound(r) && n < MAX_SLOTS && CanRun(r, Init(n), steps)
  }

  /* ---- Mutual exclusion ---- */

  // The launcher has accepted slot `g`, started its viewer on it and sent no close yet.
  predicate Holds(l: Link, g: int) {
    && l.client.mode == Launch
    && l.client.exec != NotStarted
    && l.client.core.instanceId == Some(g)
    && forall k :: 0 <= k < |l.sent| ==> !l.sent[k].NotifyClosed?
  }

  lemma ClosesShow(l: Link)
    requires LinkInv(l) && l.client.mode == Launch
    ensures |l.sent| > 3 ==> exists k :: 0 <= k < |l.sent| && l.sent[k].NotifyClosed?
  {
    assert |l.sent| > 3 ==> l.sent[3].NotifyClosed?;
  }

  lemma HolderGrant(l: Link, g: int)
    requires LinkInv(l) && Holds(l, g)
    ensures Outstanding(l) && l.granted == Some(g)
  {
    ClosesShow(l);
  }

  lemma HolderOwns(s: State, i: nat, g: int)
    requires Inv(s) && i < |s.links| && Holds(s.links[i], g)
    ensures 0 <= g < |s.slots| && s.owner[g] == Some(i) && s.slots[g].status != Idle
  {
    HolderGrant(s.links[i], g);
    assert OwnsGrant(s, i) && SlotInv(s, g);
  }

  // Two launchers that hold a slot hold different slots, and a held slot is never idle.
  lemma MutualExclusion(r: Reader, n: nat, steps: seq<Step>, i: nat, gi: int)
    requires Runnable(r, n, steps)
    requires var s := Reached(r, n, steps); i < |s.links| && Holds(s.links[i], gi)
    ensures var s := Reached(r, n, steps);
            && 0 <= gi < n == |s.slots|
            && s.slots[gi].status != Idle
            && forall j, gj :: 0 <= j < |s.links| && j != i && Holds(s.links[j], gj) ==> gi != gj
  {
    var s := Reached(r, n, steps);
    ReachableInv(r, n, steps);
    HolderOwns(s, i, gi);
    forall j, gj | 0 <= j < |s.links| && j != i && Holds(s.links[j], gj) ensures gi != gj {
      HolderOwns(s, j, gj);
    }
  }

  /* ---- Freeing ---- */

  // The step makes slot `g` idle.
  predicate Frees(r: Reader, s: State, step: Step, g: nat)
    requires Enabled(r, s, step)
  {
    && g < |s.slots| && g < |Apply(r, s, step).slots|
    && s.slots[g].status != Idle && Apply(r, s, step).slots[g].status == Idle
  }

  // Only the first close of the launcher that was granted the slot frees it.
  lemma FreeingSession(r: Reader, s: State, step: Step, g: nat)
    requires Sound(r) && Inv(s) && Enabled(r, s, step) && Frees(r, s, step, g)
    ensures step.SessionStep? && s.owner[g] == Some(step.i) && s.links[step.i].granted == Some(g)
    ensures Heard(r, s.links[step.i]) == NotifyClosed(g) && s.links[step.i].handled == 3
    ensures Apply(r, s, step).links[step.i].handled == 4
  {
    assert step.SessionStep?;
    var e := Heard(r, s.links[step.i]);
    HeardMoves(r, s, step.i);
    SessionMoveShape(s, step.i, e);
    ShapeFrees(s, SessionMove(s, step.i, e), step.i, e, g);
  }

  lemma ShapeFrees(s: State, s': State, i: nat, e: Event, g: nat)
    requires SessionShape(s, s', i, e) && g < |s.slots| && s.slots[g].status != Idle && s'.slots[g].status == Idle
    requires |s.owner| == |s.slots|
    ensures Closes(s, s', i, g) && e == NotifyClosed(g)
  {
  }

  // Only a move of its own session changes what connection `i` has handled and was granted.
  predicate SameProgress(l: Link, l': Link) {
    l'.handled == l.handled && l'.granted == l.granted && l'.client.mode == l.client.mode
  }

  lemma LocalProgress(r: Reader, l: Link, step: Step)
    requires LocalEnabled(r, l, step)
    ensures SameProgress(l, LocalMove(r, l, step))
  {
  }

  lemma ProgressStays(r: Reader, s: State, step: Step, i: nat)
    requires Enabled(r, s, step) && i < |s.links| && step != SessionStep(i)
    ensures i < |Apply(r, s, step).links| && SameProgress(s.links[i], Apply(r, s, step).links[i])
  {
    StepLink(r, s, step, i);
    if IsLocal(step) && step.i == i {
      LocalProgress(r, s.links[i], step);
    }
  }

  lemma HandledFour(l: Link)
    requires LinkInv(l) && l.client.mode == Launch && l.handled >= 4
    ensures !l.session.looping
  {
  }

  // Once a session has handled a close it handles nothing more, however many closes follow.
  lemma {:induction false} ClosedForGood(r: Reader, s: State, steps: seq<Step>, i: nat)
    requires Sound(r) && Inv(s) && CanRun(r, s, steps) && i < |s.links|
    requires s.links[i].client.mode == Launch && s.links[i].handled >= 4
    ensures var s' := Run(r, s, steps);
            i < |s'.links| && SameProgress(s.links[i], s'.links[i]) && !Enabled(r, s', SessionStep(i))
    decreases |steps|
  {
    HandledFour(s.links[i]);
    if steps != [] {
      ProgressStays(r, s, steps[0], i);
      StepInv(r, s, steps[0]);
      ClosedForGood(r, Apply(r, s, steps[0]), steps[1..], i);
    }
  }

  // Each grant is freed at most once, by the session that received it: after the freeing step, no
  // later step of that session frees anything, whoever holds the slot by then.
  lemma FreedOncePerGrant(r: Reader, n: nat, before: seq<Step>, free: Step, after: seq<Step>, later: Step,
                          g: nat, h: nat)
    requires Runnable(r, n, before) && g < n && h < n
    requires var s := Reached(r, n, before); Enabled(r, s, free) && Frees(r, s, free, g)
    requires var t := Apply(r, Reached(r, n, before), free);
             CanRun(r, t, after) && Enabled(r, Run(r, t, after), later) && Frees(r, Run(r, t, after), later, h)
    ensures free.SessionStep? && later.SessionStep? && free.i != later.i
    ensures var s := Reached(r, n, before); free.i < |s.links| && s.links[free.i].granted == Some(g)
    ensures var u := Run(r, Apply(r, Reached(r, n, before), free), after);
            later.i < |u.links| && u.links[later.i].granted == Some(h)
  {
    var s := Reached(r, n, before);
    ReachableInv(r, n, before);
    FreeingSession(r, s, free, g);
    StepInv(r, s, free);
    FreedBefore(r, Apply(r, s, free), after, free.i, later, h);
  }

  lemma FreedBefore(r: Reader, t: State, after: seq<Step>, i: nat, later: Step, h: nat)
    requires Sound(r) && Inv(t) && CanRun(r, t, after) && i < |t.links| && t.links[i].handled == 4
    requires Enabled(r, Run(r, t, after), later) && Frees(r, Run(r, t, after), later, h)
    ensures later.SessionStep? && later.i != i
    ensures Run(r, t, after).links[later.i].granted == Some(h)
  {
    RunInv(r, t, after);
    FreeingSession(r, Run(r, t, after), later, h);
    assert LinkInv(t.links[i]);
    ClosedForGood(r, t, after, i);
  }

  /* ---- The launcher's own slot ---- */

  lemma AppDiedHasGrant(l: Link)
    requires LinkInv(l) && CanReact(l) && l.client.inbox[0].NotifyAppDied?
    ensures l.granted.Some? && l.client.core.instanceId == Some(l.granted.value)
    ensures React(l.client.core, l.client.inbox[0]).sends == [NotifyClosed(l.granted.value)]
  {
    assert Coming(l)[0] == l.client.inbox[0];
  }

  lemma AppDiedInState(r: Reader, s: State, i: nat)
    requires Sound(r) && Inv(s) && Enabled(r, s, ClientStep(i)) && s.links[i].client.inbox[0].NotifyAppDied?
    ensures var l := s.links[i];
            && r(l.client.inbox[0], "") == Some(l.client.inbox[0])
            && l.granted.Some? && l.client.core.instanceId == Some(l.granted.value) && l.granted.value < |s.slots|
            && React(l.client.core, l.client.inbox[0]).sends == [NotifyClosed(l.granted.value)]
  {
    HeadReads(r, s.links[i]);
    AppDiedHasGrant(s.links[i]);
    assert OwnsGrant(s, i);
  }

  // A launcher that is about to handle APP_DIED carries the slot it was granted, so the close it
  // answers with names its own slot.
  lemma AppDiedFindsOwnGrant(r: Reader, n: nat, steps: seq<Step>, i: nat)
    requires Runnable(r, n, steps)
    requires var s := Reached(r, n, steps);
             && Enabled(r, s, ClientStep(i)) && s.links[i].client.inbox[0].NotifyAppDied?
    ensures var s := Reached(r, n, steps);
            var l := s.links[i];
            && r(l.client.inbox[0], "") == Some(l.client.inbox[0])
            && l.granted.Some? && l.client.core.instanceId == Some(l.granted.value) && l.granted.value < n
            && React(l.client.core, l.client.inbox[0]).sends == [NotifyClosed(l.granted.value)]
  {
    ReachableInv(r, n, steps);
    AppDiedInState(r, Reached(r, n, steps), i);
  }

  lemma KillAppInState(l: Link)
    requires LinkInv(l) && l.client.exec == Exited
    ensures l.client.mode == Launch && l.granted.Some?
    ensures KillAppSends(l.client.core) == if |l.sent| == 3 then [NotifyClosed(l.granted.value)] else []
  {
  }

  lemma SentShape(l: Link)
    requires LinkInv(l) && l.client.mode == Launch
    ensures forall k :: 0 <= k < |l.sent| && k < 3 ==> !l.sent[k].NotifyClosed?
    ensures l.client.exec == Exited ==> |l.sent| >= 3
  {
  }

  // When the application has exited, `killApp` reports the close of the granted slot if and only if
  // no close has been sent yet, whatever the main loop has handled in the meantime.
  lemma KillAppClosesOnce(r: Reader, n: nat, steps: seq<Step>, i: nat)
    requires Runnable(r, n, steps)
    requires var s := Reached(r, n, steps); i < |s.links| && s.links[i].client.exec == Exited
    ensures var l := Reached(r, n, steps).links[i];
            && l.granted.Some? && l.granted.value < n
            && KillAppSends(l.client.core)
               == (if exists k :: 0 <= k < |l.sent| && l.sent[k].NotifyClosed? then []
                   else [NotifyClosed(l.granted.value)])
  {
    var s := Reached(r, n, steps);
    ReachableInv(r, n, steps);
    var l := s.links[i];
    KillAppInState(l);
    ClosesShow(l);
    SentShape(l);
    assert OwnsGrant(s, i);
  }

  /* ---- Traffic ---- */

  lemma LaunchTraffic(l: Link)
    requires LinkInv(l) && l.client.mode == Launch
    ensures 1 <= |l.sent| <= 5 && l.handled <= 4
    ensures l.sent[0].ReqCheck? && (|l.sent| > 1 ==> l.sent[1].ReqGetIdle?)
    ensures |l.sent| > 2 ==> l.granted.Some? && l.sent[2].ReqSetBundle? && l.sent[2].id == l.granted.value
    ensures forall k :: 3 <= k < |l.sent| ==> l.sent[k] == NotifyClosed(l.granted.value)
  {
  }

  // A launch sends CHECK, perhaps GET_IDLE, perhaps SET_BUNDLE, and then at most two closes, all
  // of them naming the slot it was granted.
  lemma MessagesPerLaunch(r: Reader, n: nat, steps: seq<Step>, i: nat)
    requires Runnable(r, n, steps)
    requires var s := Reached(r, n, steps); i < |s.links| && s.links[i].client.mode == Launch
    ensures var l := Reached(r, n, steps).links[i];
            && 1 <= |l.sent| <= 5 && l.handled <= 4
            && l.sent[0].ReqCheck?
            && (|l.sent| > 1 ==> l.sent[1].ReqGetIdle?)
            && (|l.sent| > 2 ==> l.granted.Some? && l.sent[2].ReqSetBundle? && l.sent[2].id == l.granted.value)
            && forall k :: 3 <= k < |l.sent| ==> l.sent[k] == NotifyClosed(l.granted.value)
  {
    ReachableInv(r, n, steps);
    LaunchTraffic(Reached(r, n, steps).links[i]);
  }

  /* ---- Leftover names ---- */

  // The tables differ at most in names left over in slots that are not in use.
  predicate SameLive(a: seq<Slot>, b: seq<Slot>) {
    && |a| == |b|
    && forall k :: 0 <= k < |a| ==> a[k].status == b[k].status && (a[k].status == Used ==> a[k] == b[k])
  }

  lemma SameLiveFirst(a: seq<Slot>, b: seq<Slot>, q: Query)
    requires SameLive(a, b)
    ensures First(a, q) == First(b, q)
  {
    var r := First(a, q);
    assert forall k :: 0 <= k < |a| ==> (Matches(a[k], q) <==> Matches(b[k], q));
    FirstIsLowest(b, q, r);
  }

  // The handlers do the same on both, up to such names.
  predicate SameEffect(oa: Outcome, ob: Outcome) {
    SameLive(oa.slots, ob.slots) && oa.(slots := []) == ob.(slots := [])
  }

  lemma SameLiveLookup(running: bool, slotId: int, a: seq<Slot>, b: seq<Slot>, e: Event)
    requires SameLive(a, b) && (e.ReqCheck? || e.ReqCloseByName?)
    ensures SameEffect(Handle(running, slotId, a, e), Handle(running, slotId, b, e))
  {
    SameLiveFirst(a, b, AnyIdle);
    if e.ReqCheck? {
      SameLiveFirst(a, b, RunningActivity(e.activity));
    } else {
      SameLiveFirst(a, b, RunningApp(e.appname));
    }
  }

  lemma SameLiveHandle(running: bool, slotId: int, a: seq<Slot>, b: seq<Slot>, e: Event)
    requires SameLive(a, b)
    ensures SameEffect(Handle(running, slotId, a, e), Handle(running, slotId, b, e))
  {
    SameLiveFirst(a, b, AnyIdle);
    if e.ReqCheck? || e.ReqCloseByName? {
      SameLiveLookup(running, slotId, a, b, e);
    }
  }

  lemma SameLiveMove(s: State, slots: seq<Slot>, i: nat, e: Event)
    requires SameLive(s.slots, slots) && i < |s.links| && s.links[i].session.inbox != []
    ensures var t, t' := SessionMove(s, i, e), SessionMove(s.(slots := slots), i, e);
            SameLive(t.slots, t'.slots) && t' == t.(slots := t'.slots)
  {
    var l := s.links[i];
    SameLiveHandle(l.session.running, l.session.slotId, s.slots, slots, e);
  }

  // Names left over in idle or reserved slots influence nothing: the same steps can be taken from
  // either table and end in states that differ in nothing else.
  lemma {:induction false} LeftoverNamesAreDead(r: Reader, s: State, slots: seq<Slot>, steps: seq<Step>)
    requires SameLive(s.slots, slots) && CanRun(r, s, steps)
    ensures CanRun(r, s.(slots := slots), steps)
    ensures var t, t' := Run(r, s, steps), Run(r, s.(slots := slots), steps);
            SameLive(t.slots, t'.slots) && t'.(slots := t.slots) == t
    decreases |steps|
  {
    if steps != [] {
      var s' := s.(slots := slots);
      assert Enabled(r, s', steps[0]);
      var t, t' := Apply(r, s, steps[0]), Apply(r, s', steps[0]);
      if steps[0].SessionStep? {
        SameLiveMove(s, slots, steps[0].i, Heard(r, s.links[steps[0].i]));
      }
      assert SameLive(t.slots, t'.slots) && t' == t.(slots := t'.slots);
      LeftoverNamesAreDead(r, t, t'.slots, steps[1..]);
    }
  }
}
