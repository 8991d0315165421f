// The promises about the slot table. They depend on one thing only: the number that a session reads
// from the bundle of a launch.

module ProtocolTable {
  import opened Wrappers
  import opened Events
  import opened Slots
  import opened VatSession
  import opened LGLauncher
  import opened Protocol
  import opened ProtocolInvariant
  import opened ProtocolSafety
  import T = ProtocolTheorems

  datatype Names = Names(appname: string, pkgname: string, activity: string)

  function NamesOf(c: Launcher): Names { Names(c.appname, c.pkgname, c.activity) }

  // What a session reads of the bundle that a launcher with these names sends for slot `g`.
  function BundleRead(r: Reader, c: Names, g: int): Option<Event> {
    r(ReqSetBundle(c.appname, c.activity, g), c.pkgname)
  }

  // A launch with these names can be granted a slot: its CHECK and its GET_IDLE can be read.
  predicate Gets(r: Reader, c: Names) {
    r(ReqCheck(c.appname, c.activity), c.pkgname).Some? && r(ReqGetIdle(c.appname, c.activity), c.pkgname).Some?
  }

  // No bundle that such a launch sends for a slot of the table is read as another slot of it.
  predicate NeverStrays(r: Reader, c: Names, n: nat) {
    Gets(r, c) ==>
      forall g :: 0 <= g < n ==>
        var e := BundleRead(r, c, g);
        e.Some? && e.value.ReqSetBundle? && 0 <= e.value.id < n ==> e.value.id == g
  }

  // No bundle that such a launch sends for a slot of the table is read as one below it.
  predicate NeverBelow(r: Reader, c: Names, n: nat) {
    Gets(r, c) ==>
      forall g :: 0 <= g < n ==>
        var e := BundleRead(r, c, g);
        e.Some? && e.value.ReqSetBundle? ==> e.value.id >= 0
  }

  function Straight(r: Reader, n: nat): Names -> bool { c => NeverStrays(r, c, n) }
  function Above(r: Reader, n: nat): Names -> bool { c => NeverBelow(r, c, n) }

  // All launches of the steps have such names.
  predicate AllLaunch(steps: seq<Step>, p: Names -> bool) {
    forall k :: 0 <= k < |steps| && steps[k].Connect? && steps[k].mode == Launch
      ==> p(Names(steps[k].appname, steps[k].pkgname, steps[k].activity))
  }

  // What the session has handled of a launch could be read.
  predicate WasRead(r: Reader, l: Link) {
    var c := NamesOf(l.client.core);
    && (l.handled >= 1 ==> r(ReqCheck(c.appname, c.activity), c.pkgname).Some?)
    && (l.handled >= 2 ==> r(ReqGetIdle(c.appname, c.activity), c.pkgname).Some?)
    && (l.handled >= 3 ==> l.granted.Some? && BundleRead(r, c, l.granted.value).Some?)
  }

  predicate Known(r: Reader, s: State, p: Names -> bool) {
    forall i :: 0 <= i < |s.links| && s.links[i].client.mode == Launch
      ==> p(NamesOf(s.links[i].client.core)) && WasRead(r, s.links[i])
  }

  /* ---- Launchers keep their names ---- */

  predicate SameNames(l: Link, l': Link) {
    l'.client.mode == l.client.mode && NamesOf(l'.client.core) == NamesOf(l.client.core)
  }

  lemma StepSameNames(r: Reader, s: State, step: Step, i: nat)
    requires Sound(r) && Enabled(r, s, step) && i < |s.links| && LinkInv(s.links[i])
    ensures i < |Apply(r, s, step).links| && SameNames(s.links[i], Apply(r, s, step).links[i])
  {
    StepLink(r, s, step, i);
    if IsLocal(step) && step.i == i {
      LocalSameNames(r, s.links[i], step);
    }
  }

  lemma LocalSameNames(r: Reader, l: Link, step: Step)
    requires Sound(r) && LinkInv(l) && LocalEnabled(r, l, step)
    ensures SameNames(l, LocalMove(r, l, step))
  {
    LocalMoveInv(r, l, step);
  }

  lemma AllLaunchSplit(steps: seq<Step>, p: Names -> bool)
    requires steps != [] && AllLaunch(steps, p)
    ensures AllLaunch([steps[0]], p) && AllLaunch(steps[1..], p)
  {
    assert forall k :: 0 <= k < |steps[1..]| ==> steps[1..][k] == steps[k + 1];
  }

  lemma AnswerWasRead(r: Reader, s: State, i: nat)
    requires Sound(r) && Inv(s) && Enabled(r, s, SessionStep(i)) && s.links[i].client.mode == Launch
    requires WasRead(r, s.links[i])
    ensures WasRead(r, Apply(r, s, SessionStep(i)).links[i])
  {
    var l, e := s.links[i], Heard(r, s.links[i]);
    HeardMoves(r, s, i);
    NextMessage(l);
    if l.handled == 2 {
      BundleMove(s, i, e);
    } else if l.handled > 2 {
      CloseMove(s, i, e);
    }
  }

  lemma StepWasRead(r: Reader, s: State, step: Step, i: nat)
    requires Sound(r) && Inv(s) && Enabled(r, s, step) && i < |s.links| && s.links[i].client.mode == Launch
    requires WasRead(r, s.links[i])
    ensures i < |Apply(r, s, step).links| && WasRead(r, Apply(r, s, step).links[i])
  {
    if step == SessionStep(i) {
      AnswerWasRead(r, s, i);
    } else {
      StepSameNames(r, s, step, i);
      T.ProgressStays(r, s, step, i);
    }
  }

  lemma StepKnown(r: Reader, s: State, step: Step, p: Names -> bool)
    requires Sound(r) && Inv(s) && Enabled(r, s, step) && Known(r, s, p) && AllLaunch([step], p)
    ensures Known(r, Apply(r, s, step), p)
  {
    var s' := Apply(r, s, step);
    forall i | 0 <= i < |s'.links| && s'.links[i].client.mode == Launch
      ensures p(NamesOf(s'.links[i].client.core)) && WasRead(r, s'.links[i])
    {
      if i < |s.links| {
        StepSameNames(r, s, step, i);
        StepWasRead(r, s, step, i);
      } else {
        assert [step][0].Connect?;
      }
    }
  }

  /* ---- The table exactly ---- */

  // The slot carries the names of the bundle as it was read, when it was read for this slot.
  predicate FilledAs(slot: Slot, e: Option<Event>, g: nat) {
    if e.Some? && e.value.ReqSetBundle? && e.value.id == g
    then slot == Slot(Used, e.value.appname, e.value.activity)
    else slot.status == Reserved
  }

  // A slot without owner is idle; one with an owner is reserved until the owner's bundle is handled,
  // and from then on filled by it.
  predicate SlotExact(r: Reader, s: State, g: nat)
    requires g < |s.slots| == |s.owner|
  {
    match s.owner[g]
    case None => s.slots[g].status == Idle
    case Some(i) =>
      && i < |s.links|
      && if s.links[i].handled < 3 then s.slots[g].status == Reserved
         else FilledAs(s.slots[g], BundleRead(r, NamesOf(s.links[i].client.core), g), g)
  }

  ghost predicate TableExact(r: Reader, s: State) {
    && |s.owner| == |s.slots|
    && (forall g :: 0 <= g < |s.slots| ==> SlotExact(r, s, g))
    && s.grants == s.closes + Busy(s.slots)
  }

  lemma QuietExact(r: Reader, s: State, s': State, i: nat)
    requires TableInv(s) && TableExact(r, s) && Quiet(s, s', i)
    ensures TableExact(r, s')
  {
    forall g | 0 <= g < |s'.slots| ensures SlotExact(r, s', g) {
      assert SlotExact(r, s, g) && SlotInv(s, g);
    }
  }

  lemma GrantExact(r: Reader, s: State, s': State, i: nat, g: nat)
    requires TableInv(s) && TableExact(r, s) && Grants(s, s', i, g)
    ensures TableExact(r, s')
  {
    BusyUpdate(s.slots, g, s.slots[g].(status := Reserved));
    forall h | 0 <= h < |s'.slots| ensures SlotExact(r, s', h) {
      assert SlotExact(r, s, h) && SlotInv(s, h);
    }
  }

  lemma CloseExact(r: Reader, s: State, s': State, i: nat, g: nat)
    requires TableInv(s) && TableExact(r, s) && Closes(s, s', i, g)
    ensures TableExact(r, s')
  {
    BusyUpdate(s.slots, g, s.slots[g].(status := Idle));
    assert SlotExact(r, s, g) && SlotInv(s, g);
    forall h | 0 <= h < |s'.slots| ensures SlotExact(r, s', h) {
      assert SlotExact(r, s, h) && SlotInv(s, h);
    }
  }

  lemma FillExact(r: Reader, s: State, s': State, i: nat, e: Event)
    requires TableInv(s) && TableExact(r, s) && Fills(s, s', i, e)
    requires BundleRead(r, NamesOf(s.links[i].client.core), s.links[i].granted.value) == Some(e)
    requires NeverStrays(r, NamesOf(s.links[i].client.core), |s.slots|) && WasRead(r, s.links[i])
    ensures TableExact(r, s')
  {
    assert OwnsGrant(s, i);
    var g := s.links[i].granted.value;
    assert SlotExact(r, s, g);
    if 0 <= e.id < |s.slots| {
      BusyUpdate(s.slots, e.id, Slot(Used, e.appname, e.activity));
    }
    forall h | 0 <= h < |s'.slots| ensures SlotExact(r, s', h) {
      assert SlotExact(r, s, h) && SlotInv(s, h);
    }
  }

  // What a session reads of a bundle is what it reads for the slot that it granted.
  lemma BundleHeard(r: Reader, l: Link)
    requires LinkInv(l) && SessionReady(r, l) && Outstanding(l) && l.handled == 2
    ensures l.client.mode == Launch ==> BundleRead(r, NamesOf(l.client.core), l.granted.value) == Some(Heard(r, l))
  {
    NextMessage(l);
  }

  lemma SessionExact(r: Reader, s: State, i: nat)
    requires Sound(r) && Inv(s) && TableExact(r, s) && Known(r, s, Straight(r, |s.slots|))
    requires Enabled(r, s, SessionStep(i))
    ensures TableExact(r, Apply(r, s, SessionStep(i)))
  {
    var e := Heard(r, s.links[i]);
    var s' := SessionMove(s, i, e);
    HeardMoves(r, s, i);
    SessionMoveShape(s, i, e);
    if Quiet(s, s', i) {
      QuietExact(r, s, s', i);
    } else if e.ReqGetIdle? {
      GrantExact(r, s, s', i, s'.links[i].granted.value);
    } else if e.ReqSetBundle? {
      assert OwnsGrant(s, i);
      BundleHeard(r, s.links[i]);
      FillExact(r, s, s', i, e);
    } else {
      CloseExact(r, s, s', i, s.links[i].granted.value);
    }
  }

  lemma OwnedStaysExact(r: Reader, s: State, step: Step, g: nat, i: nat)
    requires Sound(r) && Inv(s) && Enabled(r, s, step) && !step.SessionStep?
    requires |s.owner| == |s.slots| && g < |s.slots| && s.owner[g] == Some(i) && SlotExact(r, s, g)
    ensures SlotExact(r, Apply(r, s, step), g)
  {
    StepSameNames(r, s, step, i);
    T.ProgressStays(r, s, step, i);
  }

  lemma OtherStepExact(r: Reader, s: State, step: Step)
    requires Sound(r) && Inv(s) && TableExact(r, s) && Enabled(r, s, step) && !step.SessionStep?
    ensures TableExact(r, Apply(r, s, step))
  {
    var s' := Apply(r, s, step);
    assert s'.slots == s.slots && s'.owner == s.owner && s'.grants == s.grants && s'.closes == s.closes;
    forall g | 0 <= g < |s'.slots| ensures SlotExact(r, s', g) {
      assert SlotExact(r, s, g);
      if s.owner[g].Some? {
        OwnedStaysExact(r, s, step, g, s.owner[g].value);
      }
    }
  }

  lemma StepExact(r: Reader, s: State, step: Step)
    requires Sound(r) && Inv(s) && TableExact(r, s) && Known(r, s, Straight(r, |s.slots|)) && Enabled(r, s, step)
    ensures TableExact(r, Apply(r, s, step))
  {
    if step.SessionStep? {
      SessionExact(r, s, step.i);
    } else {
      OtherStepExact(r, s, step);
    }
  }

  lemma {:induction false} RunExact(r: Reader, s: State, steps: seq<Step>)
    requires Sound(r) && Inv(s) && TableExact(r, s) && Known(r, s, Straight(r, |s.slots|))
    requires CanRun(r, s, steps) && AllLaunch(steps, Straight(r, |s.slots|))
    ensures TableExact(r, Run(r, s, steps)) && Known(r, Run(r, s, steps), Straight(r, |s.slots|))
    decreases |steps|
  {
    if steps != [] {
      var t := Apply(r, s, steps[0]);
      AllLaunchSplit(steps, Straight(r, |s.slots|));
      StepKnown(r, s, steps[0], Straight(r, |s.slots|));
      StepExact(r, s, steps[0]);
      StepInv(r, s, steps[0]);
      assert |t.slots| == |s.slots|;
      RunExact(r, t, steps[1..]);
    }
  }

  // A run of launches whose bundles never stray; requests to close may have any names.
  ghost predicate StraightRun(r: Reader, n: nat, steps: seq<Step>) {
    T.Runnable(r, n, steps) && AllLaunch(steps, Straight(r, n))
  }

  lemma ReachableExact(r: Reader, n: nat, steps: seq<Step>)
    requires StraightRun(r, n, steps)
    ensures var s := T.Reached(r, n, steps);
            Inv(s) && TableExact(r, s) && Known(r, s, Straight(r, n)) && |s.slots| == n
  {
    InitInv(n);
    AllIdleBusy(Init(n).slots);
    RunExact(r, Init(n), steps);
    ReachableInv(r, n, steps);
  }

  /* ---- What follows for every run without strays ---- */

  // Slots are conserved: those not idle are the grants issued less the closes handled, and a
  // request is refused exactly when all `n` are out.
  lemma Conservation(r: Reader, n: nat, steps: seq<Step>, i: nat)
    requires StraightRun(r, n, steps)
    ensures var s := T.Reached(r, n, steps);
            && s.grants == s.closes + Busy(s.slots) && s.grants - s.closes <= n
            && (Enabled(r, s, SessionStep(i)) && Heard(r, s.links[i]).ReqGetIdle? ==>
                  (Answer(s.links[i], s.slots, Heard(r, s.links[i])).replies == [ResNotAvailable]
                   <==> s.grants - s.closes == n))
  {
    var s := T.Reached(r, n, steps);
    ReachableExact(r, n, steps);
    if Enabled(r, s, SessionStep(i)) && Heard(r, s.links[i]).ReqGetIdle? {
      var l, e := s.links[i], Heard(r, s.links[i]);
      GetIdleIsExact(l.session.running, l.session.slotId, s.slots, e.appname, e.activity);
    }
  }

  // Connection `l` was granted slot `g`, and the slot carries its bundle as its session read it.
  predicate FilledBy(r: Reader, l: Link, slot: Slot, g: nat) {
    && l.granted == Some(g) && l.handled == 3 && |l.sent| >= 3 && l.sent[2].ReqSetBundle? && l.sent[2].id == g
    && r(l.sent[2], l.client.core.pkgname) == Some(ReqSetBundle(slot.appname, slot.activity, g))
  }

  // A bundle that is not read as one for slot `g`.
  predicate NotFor(e: Option<Event>, g: nat) {
    !(e.Some? && e.value.ReqSetBundle? && e.value.id == g)
  }

  // Connection `l` was granted slot `g`, and its bundle has not been handled, or was not read as one
  // for this slot.
  predicate WaitsFor(r: Reader, l: Link, g: nat) {
    && l.granted == Some(g)
    && (l.handled == 2 || (l.handled == 3 && NotFor(BundleRead(r, NamesOf(l.client.core), g), g)))
  }

  lemma OwnerFills(r: Reader, s: State, g: nat, i: nat)
    requires Inv(s) && TableExact(r, s) && g < |s.slots| && s.owner[g] == Some(i)
    ensures i < |s.links| && s.slots[g].status != Idle
    ensures s.slots[g].status == Used ==> FilledBy(r, s.links[i], s.slots[g], g)
    ensures s.slots[g].status == Reserved ==> WaitsFor(r, s.links[i], g)
  {
    assert SlotExact(r, s, g) && SlotInv(s, g) && OwnsGrant(s, i) && LinkInv(s.links[i]);
  }

  // Every used slot carries the names its holder announced, as its session read them; every reserved
  // one waits for its holder's bundle, or that bundle was not read as one for a slot of the table.
  lemma TableAgreesWithHolders(r: Reader, n: nat, steps: seq<Step>, g: nat)
    requires StraightRun(r, n, steps) && g < n
    ensures var s := T.Reached(r, n, steps);
            && g < |s.slots| == |s.owner|
            && (s.slots[g].status != Idle ==>
                  && s.owner[g].Some? && s.owner[g].value < |s.links|
                  && var l := s.links[s.owner[g].value];
                     && (s.slots[g].status == Used ==> FilledBy(r, l, s.slots[g], g))
                     && (s.slots[g].status == Reserved ==> WaitsFor(r, l, g)))
            && (s.slots[g].status == Idle ==> s.owner[g] == None)
  {
    var s := T.Reached(r, n, steps);
    ReachableExact(r, n, steps);
    assert SlotExact(r, s, g);
    if s.owner[g].Some? {
      OwnerFills(r, s, g, s.owner[g].value);
    }
  }

  // Slot `g` changes in this step: the session that was granted it handles GET_IDLE, SET_BUNDLE or
  // the first close of its launcher.
  predicate LifeCycle(r: Reader, s: State, step: Step, g: nat)
    requires Enabled(r, s, step) && g < |s.slots| && g < |Apply(r, s, step).slots|
  {
    var was, now := s.slots[g], Apply(r, s, step).slots[g];
    && step.SessionStep?
    && var l, e := s.links[step.i], Heard(r, s.links[step.i]);
       && Apply(r, s, step).links[step.i].granted == Some(g)
       && match l.handled
          case 1 => was.status == Idle && now.status == Reserved && e.ReqGetIdle?
          case 2 => was.status == Reserved && now.status == Used && e == ReqSetBundle(now.appname, now.activity, g)
          case 3 => && now == was.(status := Idle) && e == NotifyClosed(g)
                    && (was.status == Used || (was.status == Reserved && WaitsFor(r, l, g)))
          case _ => false
  }

  lemma FillLifeCycle(r: Reader, s: State, i: nat, g: nat)
    requires Inv(s) && TableExact(r, s) && Known(r, s, Straight(r, |s.slots|)) && Enabled(r, s, SessionStep(i))
    requires Fills(s, SessionMove(s, i, Heard(r, s.links[i])), i, Heard(r, s.links[i])) && g < |s.slots|
    ensures Apply(r, s, SessionStep(i)).slots[g] != s.slots[g] ==> LifeCycle(r, s, SessionStep(i), g)
  {
    assert OwnsGrant(s, i);
    BundleHeard(r, s.links[i]);
    assert SlotExact(r, s, s.links[i].granted.value);
  }

  lemma CloseLifeCycle(r: Reader, s: State, i: nat, h: nat, g: nat)
    requires Inv(s) && TableExact(r, s) && Enabled(r, s, SessionStep(i)) && Heard(r, s.links[i]) == NotifyClosed(h)
    requires Closes(s, SessionMove(s, i, Heard(r, s.links[i])), i, h) && g < |s.slots|
    ensures Apply(r, s, SessionStep(i)).slots[g] != s.slots[g] ==> LifeCycle(r, s, SessionStep(i), g)
  {
    OwnerFills(r, s, h, i);
  }

  lemma ShapeLifeCycle(r: Reader, s: State, i: nat, g: nat)
    requires Inv(s) && TableExact(r, s) && Known(r, s, Straight(r, |s.slots|)) && Enabled(r, s, SessionStep(i))
    requires SessionShape(s, SessionMove(s, i, Heard(r, s.links[i])), i, Heard(r, s.links[i])) && g < |s.slots|
    ensures |Apply(r, s, SessionStep(i)).slots| == |s.slots|
    ensures Apply(r, s, SessionStep(i)).slots[g] != s.slots[g] ==> LifeCycle(r, s, SessionStep(i), g)
  {
    var e := Heard(r, s.links[i]);
    if e.ReqSetBundle? {
      FillLifeCycle(r, s, i, g);
    } else if e.NotifyClosed? {
      CloseLifeCycle(r, s, i, s.links[i].granted.value, g);
    }
  }

  // In a run without strays a slot changes only when the session that was granted it handles
  // GET_IDLE, SET_BUNDLE and the first close of its launcher.
  lemma SlotLifeCycle(r: Reader, n: nat, steps: seq<Step>, step: Step, g: nat)
    requires StraightRun(r, n, steps) && Enabled(r, T.Reached(r, n, steps), step) && g < n
    ensures var s := T.Reached(r, n, steps);
            && |s.slots| == |Apply(r, s, step).slots| == n
            && (Apply(r, s, step).slots[g] != s.slots[g] ==> LifeCycle(r, s, step, g))
  {
    var s := T.Reached(r, n, steps);
    ReachableExact(r, n, steps);
    if step.SessionStep? {
      HeardMoves(r, s, step.i);
      SessionMoveShape(s, step.i, Heard(r, s.links[step.i]));
      ShapeLifeCycle(r, s, step.i, g);
    }
  }

  /* ---- The bounds of the table ---- */

  lemma StepAbove(r: Reader, s: State, step: Step)
    requires Sound(r) && Inv(s) && Enabled(r, s, step) && Known(r, s, Above(r, |s.slots|)) && !s.fault
    ensures !Apply(r, s, step).fault
  {
    if step.SessionStep? {
      var e := Heard(r, s.links[step.i]);
      HeardMoves(r, s, step.i);
      SessionMoveShape(s, step.i, e);
      if e.ReqSetBundle? {
        assert OwnsGrant(s, step.i);
        BundleHeard(r, s.links[step.i]);
      }
    }
  }

  lemma {:induction false} RunAbove(r: Reader, s: State, steps: seq<Step>)
    requires Sound(r) && Inv(s) && Known(r, s, Above(r, |s.slots|)) && !s.fault
    requires CanRun(r, s, steps) && AllLaunch(steps, Above(r, |s.slots|))
    ensures !Run(r, s, steps).fault && Known(r, Run(r, s, steps), Above(r, |s.slots|))
    decreases |steps|
  {
    if steps != [] {
      AllLaunchSplit(steps, Above(r, |s.slots|));
      StepKnown(r, s, steps[0], Above(r, |s.slots|));
      StepAbove(r, s, steps[0]);
      StepInv(r, s, steps[0]);
      assert |Apply(r, s, steps[0]).slots| == |s.slots|;
      RunAbove(r, Apply(r, s, steps[0]), steps[1..]);
    }
  }

  lemma IndexHeard(r: Reader, s: State, i: nat)
    requires Sound(r) && Inv(s) && Enabled(r, s, SessionStep(i)) && Known(r, s, Above(r, |s.slots|))
    ensures !IndexBelowTable(Heard(r, s.links[i]))
    ensures Heard(r, s.links[i]).NotifyClosed? ==> Heard(r, s.links[i]).id < |s.slots|
  {
    var e := Heard(r, s.links[i]);
    HeardMoves(r, s, i);
    SessionMoveShape(s, i, e);
    if e.ReqSetBundle? {
      assert OwnsGrant(s, i);
      BundleHeard(r, s.links[i]);
    }
  }

  // The handlers check a received slot number against the upper bound only. When no bundle of a launch
  // is read as one for a slot below the table, no session ever meets such a number, whatever the names
  // in requests to close are; and that of a close is in the table in any case.
  lemma IndicesInTable(r: Reader, n: nat, steps: seq<Step>, i: nat)
    requires T.Runnable(r, n, steps) && AllLaunch(steps, Above(r, n))
    ensures var s := T.Reached(r, n, steps);
            && !s.fault
            && (Enabled(r, s, SessionStep(i)) ==>
                  var e := Heard(r, s.links[i]);
                  !IndexBelowTable(e) && (e.NotifyClosed? ==> e.id < n))
  {
    InitInv(n);
    RunAbove(r, Init(n), steps);
    ReachableInv(r, n, steps);
    if Enabled(r, T.Reached(r, n, steps), SessionStep(i)) {
      IndexHeard(r, T.Reached(r, n, steps), i);
    }
  }
}
