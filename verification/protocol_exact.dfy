// The conditions on names under which the daemon keeps its table are exact, for any receiver: where one
// does not hold there is a run in which the promise is broken.

module ProtocolExact {
  import opened Wrappers
  import opened Events
  import opened Slots
  import opened Protocol
  import opened ProtocolInvariant
  import opened ProtocolSafety
  import opened ProtocolTable
  import opened ProtocolLaunches
  import T = ProtocolTheorems

  /* ---- Indices below the table ---- */

  // In no run of a daemon with `n` slots in which all launches have names from `p`, whatever is asked
  // to be closed, does a session index the table below its start.
  ghost predicate NeverFaults(r: Reader, n: nat, p: Names -> bool) {
    forall steps :: CanRun(r, Init(n), steps) && AllLaunch(steps, p) ==> !T.Reached(r, n, steps).fault
  }

  function Repeat(c: Names, m: nat): seq<Names> { seq(m, _ => c) }

  // The daemon after `g + 1` launches of the same names.
  lemma RepeatedLaunches(r: Reader, n: nat, c: Names, g: nat)
    requires Sound(r) && g < n < MAX_SLOTS && Gets(r, c)
    ensures CanRun(r, Init(n), LaunchPaths(Repeat(c, g + 1)))
    ensures Run(r, Init(n), LaunchPaths(Repeat(c, g + 1))) == Launched(Repeat(c, g + 1), n)
    ensures |Launched(Repeat(c, g + 1), n).links| == g + 1 && Launched(Repeat(c, g + 1), n).links[g] == Ready(c, g)
  {
    forall d | d in Repeat(c, g + 1) ensures Gets(r, d) {
    }
    ManyLaunches(r, Repeat(c, g + 1), n);
  }

  lemma SameLaunches(r: Reader, n: nat, c: Names, g: nat, p: Names -> bool)
    requires Sound(r) && g < n < MAX_SLOTS && Gets(r, c) && p(c)
    ensures var paths := LaunchPaths(Repeat(c, g + 1));
            && AllLaunch(paths, p) && CanRun(r, Init(n), paths)
            && Run(r, Init(n), paths) == Launched(Repeat(c, g + 1), n)
    ensures |Launched(Repeat(c, g + 1), n).links| == g + 1 && Launched(Repeat(c, g + 1), n).links[g] == Ready(c, g)
  {
    forall d | d in Repeat(c, g + 1) ensures p(d) {
    }
    RepeatedLaunches(r, n, c, g);
    PathsLaunch(Repeat(c, g + 1), p);
  }

  // A bundle read as one for a slot below the table gets there.
  lemma BelowFaults(r: Reader, n: nat, c: Names, g: nat, p: Names -> bool)
    requires Sound(r) && g < n < MAX_SLOTS && Gets(r, c) && p(c)
    requires BundleRead(r, c, g).Some? && BundleRead(r, c, g).value.ReqSetBundle? && BundleRead(r, c, g).value.id < 0
    ensures !NeverFaults(r, n, p)
  {
    var paths := LaunchPaths(Repeat(c, g + 1));
    SameLaunches(r, n, c, g, p);
    BundleHandled(r, Launched(Repeat(c, g + 1), n), c, g);
    RunJoin(r, Init(n), paths, BundlePath(g));
    AllLaunchJoin(paths, BundlePath(g), p);
    assert T.Reached(r, n, paths + BundlePath(g)).fault;
  }

  // A session can be made to index the table below its start exactly if some launch sends a bundle that
  // is read as one for a slot below it.
  lemma NeverBelowExactly(r: Reader, n: nat, p: Names -> bool)
    requires Sound(r) && n < MAX_SLOTS
    ensures NeverFaults(r, n, p) <==> forall c :: p(c) ==> NeverBelow(r, c, n)
  {
    if forall c :: p(c) ==> NeverBelow(r, c, n) {
      forall steps | CanRun(r, Init(n), steps) && AllLaunch(steps, p) ensures !T.Reached(r, n, steps).fault {
        IndicesInTable(r, n, steps, 0);
      }
    }
    if NeverFaults(r, n, p) {
      forall c | p(c) ensures NeverBelow(r, c, n) {
        if !NeverBelow(r, c, n) {
          var g: nat :| g < n && BundleRead(r, c, g).Some? && BundleRead(r, c, g).value.ReqSetBundle?
                        && BundleRead(r, c, g).value.id < 0;
          BelowFaults(r, n, c, g, p);
        }
      }
    }
  }

  /* ---- The life cycle of a slot ---- */

  // In every such run a slot changes only as in its life cycle.
  ghost predicate ChangesInOrder(r: Reader, n: nat, steps: seq<Step>, step: Step, g: nat) {
    CanRun(r, Init(n), steps) && Enabled(r, T.Reached(r, n, steps), step) && g < n ==>
      var s := T.Reached(r, n, steps);
      && |s.slots| == |Apply(r, s, step).slots| == n
      && (Apply(r, s, step).slots[g] != s.slots[g] ==> LifeCycle(r, s, step, g))
  }

  ghost predicate AlwaysInOrder(r: Reader, n: nat, p: Names -> bool) {
    forall steps, step, g: nat :: AllLaunch(steps, p) ==> ChangesInOrder(r, n, steps, step, g)
  }

  // A bundle for slot `g` that is read as one for another slot of the table.
  predicate StraysInto(r: Reader, c: Names, g: nat, k: nat, n: nat) {
    && Gets(r, c) && g < n && k < n && k != g
    && BundleRead(r, c, g).Some? && BundleRead(r, c, g).value.ReqSetBundle? && BundleRead(r, c, g).value.id == k
  }

  lemma StrayIsOutOfOrder(r: Reader, n: nat, c: Names, g: nat, k: nat, p: Names -> bool)
    requires Sound(r) && n < MAX_SLOTS && p(c) && StraysInto(r, c, g, k, n)
    ensures !AlwaysInOrder(r, n, p)
  {
    var paths := LaunchPaths(Repeat(c, g + 1));
    var s := Launched(Repeat(c, g + 1), n);
    SameLaunches(r, n, c, g, p);
    BundleDelivered(r, s, c, g);
    var t := Apply(r, s, UpDeliver(g));
    RunStep(r, s, UpDeliver(g), []);
    RunJoin(r, Init(n), paths, [UpDeliver(g)]);
    AllLaunchJoin(paths, [UpDeliver(g)], p);
    StrayStep(r, t, c, g, k);
    assert !ChangesInOrder(r, n, paths + [UpDeliver(g)], SessionStep(g), k);
  }

  lemma StrayStep(r: Reader, s: State, c: Names, g: nat, k: nat)
    requires StraysInto(r, c, g, k, |s.slots|) && g < |s.links| && s.slots[k].status != Used
    requires s.links[g] == Ready(c, g).(up := [], session := Ready(c, g).session.(inbox := Ready(c, g).up))
    ensures Enabled(r, s, SessionStep(g))
    ensures var t := Apply(r, s, SessionStep(g));
            |t.slots| == |s.slots| && t.slots[k] != s.slots[k] && !LifeCycle(r, s, SessionStep(g), k)
  {
    assert Enabled(r, s, SessionStep(g)) && BundleRead(r, c, g) == Some(Heard(r, s.links[g]));
    assert Apply(r, s, SessionStep(g)).links[g].granted == Some(g);
  }

  lemma StraysSomewhere(r: Reader, c: Names, n: nat) returns (g: nat, k: nat)
    requires !NeverStrays(r, c, n)
    ensures StraysInto(r, c, g, k, n)
  {
    g :| g < n && BundleRead(r, c, g).Some? && BundleRead(r, c, g).value.ReqSetBundle?
         && 0 <= BundleRead(r, c, g).value.id < n && BundleRead(r, c, g).value.id != g;
    k := BundleRead(r, c, g).value.id;
  }

  // Slots follow their life cycle in every run exactly if no launch sends a bundle that is read as one
  // for another slot of the table.
  lemma NeverStraysExactly(r: Reader, n: nat, p: Names -> bool)
    requires Sound(r) && n < MAX_SLOTS
    ensures AlwaysInOrder(r, n, p) <==> forall c :: p(c) ==> NeverStrays(r, c, n)
  {
    if forall c :: p(c) ==> NeverStrays(r, c, n) {
      forall steps, step, g: nat | AllLaunch(steps, p) ensures ChangesInOrder(r, n, steps, step, g) {
        if CanRun(r, Init(n), steps) && Enabled(r, T.Reached(r, n, steps), step) && g < n {
          SlotLifeCycle(r, n, steps, step, g);
        }
      }
    }
    if AlwaysInOrder(r, n, p) {
      forall c | p(c) ensures NeverStrays(r, c, n) {
        if !NeverStrays(r, c, n) {
          var g, k := StraysSomewhere(r, c, n);
          StrayIsOutOfOrder(r, n, c, g, k, p);
        }
      }
    }
  }

  /* ---- The number of slots that are out ---- */

  // Whoever is granted slot `k` keeps it: its bundle cannot be read.
  ghost predicate Pinned(r: Reader, p: Names -> bool, k: nat) {
    forall c :: p(c) && Gets(r, c) ==> BundleRead(r, c, k) == None
  }

  // Every stray goes into a lower slot that is out for good.
  ghost predicate OnlyPinnedStrays(r: Reader, p: Names -> bool, n: nat) {
    forall c, g: nat, k: nat :: p(c) && StraysInto(r, c, g, k, n) ==> k < g && Pinned(r, p, k)
  }

  // The slots below the one that connection `l` was granted and that are kept for good are out.
  ghost predicate BelowIsOut(r: Reader, p: Names -> bool, slots: seq<Slot>, l: Link) {
    Outstanding(l) ==>
      forall k :: 0 <= k < l.granted.value && k < |slots| && Pinned(r, p, k) ==> slots[k].status != Idle
  }

  ghost predicate Counted(r: Reader, p: Names -> bool, s: State) {
    && s.grants == s.closes + Busy(s.slots)
    && forall i :: 0 <= i < |s.links| ==> BelowIsOut(r, p, s.slots, s.links[i])
  }

  lemma QuietCounted(r: Reader, p: Names -> bool, s: State, s': State, i: nat)
    requires Counted(r, p, s) && Quiet(s, s', i)
    ensures Counted(r, p, s')
  {
    forall j | 0 <= j < |s'.links| ensures BelowIsOut(r, p, s'.slots, s'.links[j]) {
      assert BelowIsOut(r, p, s.slots, s.links[j]);
    }
  }

  lemma GrantCounted(r: Reader, p: Names -> bool, s: State, s': State, i: nat, g: nat)
    requires Counted(r, p, s) && Grants(s, s', i, g) && forall k :: 0 <= k < g ==> s.slots[k].status != Idle
    ensures Counted(r, p, s')
  {
    BusyUpdate(s.slots, g, s.slots[g].(status := Reserved));
    forall j | 0 <= j < |s'.links| ensures BelowIsOut(r, p, s'.slots, s'.links[j]) {
      assert BelowIsOut(r, p, s.slots, s.links[j]);
    }
  }

  // A session grants the lowest idle slot.
  lemma GrantsLowest(s: State, i: nat, e: Event, g: nat)
    requires i < |s.links| && s.links[i].session.inbox != [] && s.links[i].granted == None && e.ReqGetIdle?
    requires SessionMove(s, i, e).links[i].granted == Some(g)
    ensures forall k :: 0 <= k < g && k < |s.slots| ==> s.slots[k].status != Idle
  {
    var idle := First(s.slots, AnyIdle);
    assert idle == g;
    assert forall k :: 0 <= k < idle ==> !Matches(s.slots[k], AnyIdle);
  }

  lemma FillCounted(r: Reader, p: Names -> bool, s: State, s': State, i: nat, e: Event)
    requires TableInv(s) && Counted(r, p, s) && Fills(s, s', i, e)
    requires e.id == s.links[i].granted.value || !(0 <= e.id < |s.slots|)
             || (e.id < s.links[i].granted.value && Pinned(r, p, e.id))
    ensures Counted(r, p, s')
  {
    assert OwnsGrant(s, i) && SlotInv(s, s.links[i].granted.value);
    assert BelowIsOut(r, p, s.slots, s.links[i]);
    if 0 <= e.id < |s.slots| {
      BusyUpdate(s.slots, e.id, Slot(Used, e.appname, e.activity));
    }
    forall j | 0 <= j < |s'.links| ensures BelowIsOut(r, p, s'.slots, s'.links[j]) {
      assert BelowIsOut(r, p, s.slots, s.links[j]);
    }
  }

  lemma CloseCounted(r: Reader, p: Names -> bool, s: State, s': State, i: nat, g: nat)
    requires TableInv(s) && Counted(r, p, s) && Closes(s, s', i, g) && !Pinned(r, p, g)
    ensures Counted(r, p, s')
  {
    assert SlotInv(s, g);
    BusyUpdate(s.slots, g, s.slots[g].(status := Idle));
    forall j | 0 <= j < |s'.links| ensures BelowIsOut(r, p, s'.slots, s'.links[j]) {
      assert BelowIsOut(r, p, s.slots, s.links[j]);
    }
  }

  // A session that has handled its bundle could read it.
  lemma ClosableIsNotPinned(r: Reader, p: Names -> bool, s: State, i: nat)
    requires Inv(s) && Known(r, s, p) && i < |s.links| && Outstanding(s.links[i]) && s.links[i].handled == 3
    ensures !Pinned(r, p, s.links[i].granted.value)
  {
    assert OwnsGrant(s, i);
    assert WasRead(r, s.links[i]) && Gets(r, NamesOf(s.links[i].client.core));
  }

  lemma FillGoesBelow(r: Reader, p: Names -> bool, s: State, i: nat)
    requires Sound(r) && Inv(s) && Known(r, s, p) && OnlyPinnedStrays(r, p, |s.slots|)
    requires Enabled(r, s, SessionStep(i)) && Outstanding(s.links[i]) && s.links[i].handled == 2
    ensures var l, e := s.links[i], Heard(r, s.links[i]);
            && e.ReqSetBundle?
            && (e.id == l.granted.value || !(0 <= e.id < |s.slots|)
                || (e.id < l.granted.value && Pinned(r, p, e.id)))
  {
    var l, e := s.links[i], Heard(r, s.links[i]);
    assert OwnsGrant(s, i);
    HeardMoves(r, s, i);
    BundleMove(s, i, e);
    BundleHeard(r, l);
    var c := NamesOf(l.client.core);
    assert p(c) && Gets(r, c) && BundleRead(r, c, l.granted.value) == Some(e);
    if 0 <= e.id < |s.slots| && e.id != l.granted.value {
      assert StraysInto(r, c, l.granted.value, e.id, |s.slots|);
    }
  }

  lemma SessionCounted(r: Reader, p: Names -> bool, s: State, i: nat)
    requires Sound(r) && Inv(s) && Known(r, s, p) && OnlyPinnedStrays(r, p, |s.slots|) && Counted(r, p, s)
    requires Enabled(r, s, SessionStep(i))
    ensures Counted(r, p, Apply(r, s, SessionStep(i)))
  {
    var l, e := s.links[i], Heard(r, s.links[i]);
    var s' := SessionMove(s, i, e);
    HeardMoves(r, s, i);
    SessionMoveShape(s, i, e);
    if Quiet(s, s', i) {
      QuietCounted(r, p, s, s', i);
    } else if e.ReqGetIdle? {
      assert l.granted == None;
      GrantsLowest(s, i, e, s'.links[i].granted.value);
      GrantCounted(r, p, s, s', i, s'.links[i].granted.value);
    } else if e.ReqSetBundle? {
      FillGoesBelow(r, p, s, i);
      FillCounted(r, p, s, s', i, e);
    } else {
      ClosableIsNotPinned(r, p, s, i);
      CloseCounted(r, p, s, s', i, l.granted.value);
    }
  }

  lemma OtherCounted(r: Reader, p: Names -> bool, s: State, step: Step)
    requires Counted(r, p, s) && Enabled(r, s, step) && !step.SessionStep?
    ensures Counted(r, p, Apply(r, s, step))
  {
    var s' := Apply(r, s, step);
    assert s'.slots == s.slots && s'.grants == s.grants && s'.closes == s.closes;
    forall j | 0 <= j < |s'.links| ensures BelowIsOut(r, p, s'.slots, s'.links[j]) {
      if j < |s.links| {
        T.ProgressStays(r, s, step, j);
        assert BelowIsOut(r, p, s.slots, s.links[j]);
      }
    }
  }

  lemma {:induction false} RunCounted(r: Reader, p: Names -> bool, s: State, steps: seq<Step>)
    requires Sound(r) && Inv(s) && Known(r, s, p) && OnlyPinnedStrays(r, p, |s.slots|) && Counted(r, p, s)
    requires CanRun(r, s, steps) && AllLaunch(steps, p)
    ensures Counted(r, p, Run(r, s, steps))
    decreases |steps|
  {
    if steps != [] {
      AllLaunchSplit(steps, p);
      StepKnown(r, s, steps[0], p);
      StepInv(r, s, steps[0]);
      if steps[0].SessionStep? {
        SessionCounted(r, p, s, steps[0].i);
      } else {
        OtherCounted(r, p, s, steps[0]);
      }
      assert |Apply(r, s, steps[0]).slots| == |s.slots|;
      RunCounted(r, p, Apply(r, s, steps[0]), steps[1..]);
    }
  }

  // In every such run the slots that are out are the grants less the closes.
  ghost predicate AlwaysCounted(r: Reader, n: nat, p: Names -> bool) {
    forall steps :: CanRun(r, Init(n), steps) && AllLaunch(steps, p) ==>
      var s := T.Reached(r, n, steps); s.grants == s.closes + Busy(s.slots)
  }

  lemma PinnedStraysAreCounted(r: Reader, n: nat, p: Names -> bool)
    requires Sound(r) && n < MAX_SLOTS && OnlyPinnedStrays(r, p, n)
    ensures AlwaysCounted(r, n, p)
  {
    forall steps | CanRun(r, Init(n), steps) && AllLaunch(steps, p)
      ensures var s := T.Reached(r, n, steps); s.grants == s.closes + Busy(s.slots)
    {
      InitInv(n);
      AllIdleBusy(Init(n).slots);
      RunCounted(r, p, Init(n), steps);
    }
  }

  /* And other strays spoil the count. */

  lemma UsedIsBusy(slots: seq<Slot>, k: nat, slot: Slot)
    requires k < |slots| && slot.status == Used
    ensures Busy(slots) <= Busy(slots[k := slot]) && slots[k := slot][k].status != Idle
    ensures slots[k].status == Idle ==> Busy(slots[k := slot]) == Busy(slots) + 1
    ensures forall j :: 0 <= j < |slots| && slots[j].status != Idle ==> slots[k := slot][j].status != Idle
  {
    BusyUpdate(slots, k, slot);
  }

  lemma MoreSteps(r: Reader, s: State, a: seq<Step>, b: seq<Step>, p: Names -> bool)
    requires CanRun(r, s, a) && AllLaunch(a, p) && CanRun(r, Run(r, s, a), b) && NoConnects(b)
    ensures CanRun(r, s, a + b) && AllLaunch(a + b, p) && Run(r, s, a + b) == Run(r, Run(r, s, a), b)
  {
    RunJoin(r, s, a, b);
  }

  // The run that ends in a state whose count is wrong.
  lemma Spoiled(r: Reader, n: nat, a: seq<Step>, s: State, b: seq<Step>, p: Names -> bool)
    requires CanRun(r, Init(n), a) && AllLaunch(a, p) && Run(r, Init(n), a) == s && NoConnects(b)
    requires Miscounts(r, s, b)
    ensures !AlwaysCounted(r, n, p)
  {
    MoreSteps(r, Init(n), a, b, p);
    assert T.Reached(r, n, a + b) == Run(r, s, b);
  }

  predicate Miscounts(r: Reader, s: State, steps: seq<Step>) {
    CanRun(r, s, steps) && Run(r, s, steps).grants != Run(r, s, steps).closes + Busy(Run(r, s, steps).slots)
  }

  lemma UpwardStray(r: Reader, n: nat, c: Names, g: nat, k: nat, p: Names -> bool)
    requires Sound(r) && n < MAX_SLOTS && p(c) && StraysInto(r, c, g, k, n) && k > g
    ensures !AlwaysCounted(r, n, p)
  {
    SameLaunches(r, n, c, g, p);
    FillsAbove(r, n, c, g, k);
    Spoiled(r, n, LaunchPaths(Repeat(c, g + 1)), Launched(Repeat(c, g + 1), n), BundlePath(g), p);
  }

  lemma FillsAbove(r: Reader, n: nat, c: Names, g: nat, k: nat)
    requires Sound(r) && n < MAX_SLOTS && StraysInto(r, c, g, k, n) && k > g
    ensures Miscounts(r, Launched(Repeat(c, g + 1), n), BundlePath(g))
  {
    BusyTaken(n, g + 1);
    FillsIdle(r, Launched(Repeat(c, g + 1), n), c, g, k);
  }

  // A stray into an idle slot.
  lemma FillsIdle(r: Reader, s: State, c: Names, g: nat, k: nat)
    requires Sound(r) && StraysInto(r, c, g, k, |s.slots|) && g < |s.links| && s.links[g] == Ready(c, g)
    requires s.slots[k].status == Idle && s.grants <= s.closes + Busy(s.slots)
    ensures Miscounts(r, s, BundlePath(g))
  {
    var e := BundleRead(r, c, g).value;
    BundleHandled(r, s, c, g);
    UsedIsBusy(s.slots, k, Slot(Used, e.appname, e.activity));
  }

  // Launch `k` of `g + 1` has names `d`, the others have names `c`.
  function Mixed(c: Names, d: Names, g: nat, k: nat): seq<Names> { seq(g + 1, i => if i == k then d else c) }

  lemma MixedLaunches(r: Reader, n: nat, c: Names, d: Names, g: nat, k: nat, p: Names -> bool)
    requires Sound(r) && k < g < n < MAX_SLOTS && Gets(r, c) && p(c) && Gets(r, d) && p(d)
    ensures var s, paths := Launched(Mixed(c, d, g, k), n), LaunchPaths(Mixed(c, d, g, k));
            AllLaunch(paths, p) && CanRun(r, Init(n), paths) && Run(r, Init(n), paths) == s
  {
    forall x | x in Mixed(c, d, g, k) ensures Gets(r, x) && p(x) {
    }
    ManyLaunches(r, Mixed(c, d, g, k), n);
    PathsLaunch(Mixed(c, d, g, k), p);
  }

  lemma MixedState(n: nat, c: Names, d: Names, g: nat, k: nat)
    requires k < g < n
    ensures var s := Launched(Mixed(c, d, g, k), n);
            && |s.links| == g + 1 && s.links[g] == Ready(c, g) && s.links[k] == Ready(d, k)
            && |s.slots| == n && Busy(s.slots) == g + 1 && s.slots[k].status != Idle
            && s.grants == g + 1 && s.closes == 0
  {
    BusyTaken(n, g + 1);
  }

  // The one that was granted slot `k` handles its bundle and closes.
  function LeavePath(k: nat): seq<Step> { BundlePath(k) + ClosePath(k) }

  lemma Leaves(r: Reader, s: State, d: Names, k: nat)
    requires Sound(r) && k < |s.links| && k < |s.slots| < MAX_SLOTS && s.links[k] == Ready(d, k)
    requires BundleRead(r, d, k).Some? && s.slots[k].status != Idle
    ensures CanRun(r, s, LeavePath(k))
    ensures var t := Run(r, s, LeavePath(k));
            && |t.slots| == |s.slots| && t.slots[k].status == Idle && Busy(t.slots) + 1 >= Busy(s.slots)
            && |t.links| == |s.links| && (forall j :: 0 <= j < |s.links| && j != k ==> t.links[j] == s.links[j])
            && t.grants == s.grants && t.closes == s.closes + 1
  {
    BundleHandled(r, s, d, k);
    var e, s1 := BundleRead(r, d, k).value, Run(r, s, BundlePath(k));
    FillKeepsBusy(s, s1, e, k);
    Closing(r, s1, d, k, if 0 <= e.id < |s.slots| then e.id else k);
    BusyUpdate(s1.slots, k, s1.slots[k].(status := Idle));
    RunJoin(r, s, BundlePath(k), ClosePath(k));
  }

  lemma FillKeepsBusy(s: State, s1: State, e: Event, k: nat)
    requires e.ReqSetBundle? && k < |s.slots| && s.slots[k].status != Idle
    requires s1.slots == (if 0 <= e.id < |s.slots| then s.slots[e.id := Slot(Used, e.appname, e.activity)] else s.slots)
    ensures Busy(s1.slots) >= Busy(s.slots) && s1.slots[k].status != Idle
  {
    if 0 <= e.id < |s.slots| {
      UsedIsBusy(s.slots, e.id, Slot(Used, e.appname, e.activity));
    }
  }

  lemma LeavesThenFills(r: Reader, n: nat, c: Names, d: Names, g: nat, k: nat)
    requires Sound(r) && n < MAX_SLOTS && StraysInto(r, c, g, k, n) && k < g && BundleRead(r, d, k).Some?
    ensures Miscounts(r, Launched(Mixed(c, d, g, k), n), LeavePath(k) + BundlePath(g))
  {
    var s := Launched(Mixed(c, d, g, k), n);
    MixedState(n, c, d, g, k);
    Leaves(r, s, d, k);
    FillsIdle(r, Run(r, s, LeavePath(k)), c, g, k);
    RunJoin(r, s, LeavePath(k), BundlePath(g));
  }

  lemma DownwardStray(r: Reader, n: nat, c: Names, g: nat, k: nat, d: Names, p: Names -> bool)
    requires Sound(r) && n < MAX_SLOTS && p(c) && StraysInto(r, c, g, k, n) && k < g
    requires p(d) && Gets(r, d) && BundleRead(r, d, k).Some?
    ensures !AlwaysCounted(r, n, p)
  {
    MixedLaunches(r, n, c, d, g, k, p);
    LeavesThenFills(r, n, c, d, g, k);
    LeavingConnectsNobody(k, g);
    Spoiled(r, n, LaunchPaths(Mixed(c, d, g, k)), Launched(Mixed(c, d, g, k), n), LeavePath(k) + BundlePath(g), p);
  }

  lemma LeavingConnectsNobody(k: nat, g: nat)
    ensures NoConnects(LeavePath(k) + BundlePath(g))
  {
  }

  // Slots are conserved in every run exactly if every bundle that is read as one for another slot of the
  // table goes into a lower one that nobody gives back.
  lemma ConservationExactly(r: Reader, n: nat, p: Names -> bool)
    requires Sound(r) && n < MAX_SLOTS
    ensures AlwaysCounted(r, n, p) <==> OnlyPinnedStrays(r, p, n)
  {
    if OnlyPinnedStrays(r, p, n) {
      PinnedStraysAreCounted(r, n, p);
    }
    if AlwaysCounted(r, n, p) {
      forall c, g: nat, k: nat | p(c) && StraysInto(r, c, g, k, n) ensures k < g && Pinned(r, p, k) {
        if k > g {
          UpwardStray(r, n, c, g, k, p);
        } else if !Pinned(r, p, k) {
          var d :| p(d) && Gets(r, d) && BundleRead(r, d, k) != None;
          DownwardStray(r, n, c, g, k, d, p);
        }
      }
    }
  }
}
