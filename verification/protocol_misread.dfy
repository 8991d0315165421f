// Which names are misread on texts, what that does to the daemon, and that it happens with no others.

module ProtocolMisread {
  import opened Wrappers
  import opened Events
  import opened Slots
  import opened Text
  import opened Numerals
  import opened VatSession
  import opened LGLauncher
  import opened Protocol
  import opened ProtocolInvariant
  import opened ProtocolSafety
  import opened ProtocolTable
  import opened ProtocolLaunches
  import opened ProtocolExact
  import opened Codec
  import opened WireExact
  import opened ProtocolText
  import W = Wire

  /* ---- The slot that is read, for names without delimiters ---- */

  predicate FreeNames(c: Names) { Free(c.appname) && Free(c.activity) }

  function ReadAs(kv: KeyValue): Option<int> {
    if kv.Found? && |kv.value| < 64 then Some(Atoi(kv.value)) else None
  }

  // What a session reads of the slot number `g` in the bundle of a launch with these names.
  function NumberRead(c: Names, g: int): Option<int> {
    if |c.appname| + |c.activity| + |Decimal(g)| <= 217 && ActivityOf(c.appname, c.activity).Found?
    then ReadAs(BundleNumberOf(c.appname, c.activity, Decimal(g)))
    else None
  }

  lemma NumberReadIsRead(c: Names, g: int)
    requires FreeNames(c) && IsInt32(g)
    ensures var e := BundleRead(W.Received, c, g);
            && e.Some? == NumberRead(c, g).Some?
            && (e.Some? ==> e.value.ReqSetBundle? && e.value.id == NumberRead(c, g).value)
  {
    var e := ReqSetBundle(c.appname, c.activity, g);
    if |c.appname| + |c.activity| + |Decimal(g)| <= 217 {
      BundleReceived(e, c.pkgname);
    } else {
      BundleTooLong(e, c.pkgname);
    }
  }

  // Whoever's bundle can be read, its CHECK and GET_IDLE can.
  lemma ReadableGets(c: Names, g: int)
    requires FreeNames(c) && NumberRead(c, g).Some?
    ensures Gets(W.Received, c)
  {
    NamesReceived(ReqCheck(c.appname, c.activity), c.pkgname);
    NamesReceived(ReqGetIdle(c.appname, c.activity), c.pkgname);
  }

  // And what can be read for one slot can be read for every lower one.
  lemma ReadableBelow(c: Names, g: nat, k: nat)
    requires FreeNames(c) && k < g < MAX_SLOTS && NumberRead(c, g).Some?
    ensures NumberRead(c, k).Some?
  {
    DecimalGrows(k, g);
    W.DecimalIsPlain(k);
  }

  lemma {:induction false} DecimalGrows(k: nat, g: nat)
    requires k <= g
    ensures |Decimal(k)| <= |Decimal(g)|
  {
    NumeralGrows(k, g);
  }

  lemma {:induction false} NumeralGrows(k: nat, g: nat)
    requires k <= g
    ensures |Numeral(k)| <= |Numeral(g)|
    decreases g
  {
    if g >= 10 {
      if k >= 10 {
        NumeralGrows(k / 10, g / 10);
      }
    }
  }

  // No bundle of these names is read as one for a slot below the table, or for another slot of it.
  predicate ReadsNoneBelow(c: Names, n: nat) {
    forall g :: 0 <= g < n && NumberRead(c, g).Some? ==> NumberRead(c, g).value >= 0
  }

  predicate ReadsNoOther(c: Names, n: nat) {
    forall g :: 0 <= g < n && NumberRead(c, g).Some? && 0 <= NumberRead(c, g).value < n ==> NumberRead(c, g).value == g
  }

  lemma NeverBelowSpelled(c: Names, n: nat)
    requires FreeNames(c) && n < MAX_SLOTS
    ensures NeverBelow(W.Received, c, n) <==> ReadsNoneBelow(c, n)
  {
    forall g | 0 <= g < n
      ensures var e := BundleRead(W.Received, c, g);
              && e.Some? == NumberRead(c, g).Some?
              && (e.Some? ==> Gets(W.Received, c) && e.value.ReqSetBundle? && e.value.id == NumberRead(c, g).value)
    {
      NumberReadIsRead(c, g);
      if NumberRead(c, g).Some? {
        ReadableGets(c, g);
      }
    }
  }

  lemma NeverStraysSpelled(c: Names, n: nat)
    requires FreeNames(c) && n < MAX_SLOTS
    ensures NeverStrays(W.Received, c, n) <==> ReadsNoOther(c, n)
  {
    forall g | 0 <= g < n
      ensures var e := BundleRead(W.Received, c, g);
              && e.Some? == NumberRead(c, g).Some?
              && (e.Some? ==> Gets(W.Received, c) && e.value.ReqSetBundle? && e.value.id == NumberRead(c, g).value)
    {
      NumberReadIsRead(c, g);
      if NumberRead(c, g).Some? {
        ReadableGets(c, g);
      }
    }
  }

  // In texts no stray goes where nobody gives a slot back: its sender would give it back.
  lemma StraysAreNeverPinned(c: Names, g: nat, k: nat, n: nat, p: Names -> bool)
    requires FreeNames(c) && p(c) && n < MAX_SLOTS && StraysInto(W.Received, c, g, k, n) && k < g
    ensures !Pinned(W.Received, p, k)
  {
    NumberReadIsRead(c, g);
    ReadableBelow(c, g, k);
    NumberReadIsRead(c, k);
  }

  /* ---- The conditions are exact on texts ---- */

  // A launch makes the daemon index its table below the start if and only if a session reads a negative
  // slot number from its bundle.
  lemma IndexExactly(n: nat, p: Names -> bool)
    requires n < MAX_SLOTS && forall c :: p(c) ==> FreeNames(c)
    ensures NeverFaults(W.Received, n, p) <==> forall c :: p(c) ==> ReadsNoneBelow(c, n)
  {
    TextsAreSound();
    NeverBelowExactly(W.Received, n, p);
    forall c | p(c) ensures NeverBelow(W.Received, c, n) <==> ReadsNoneBelow(c, n) {
      NeverBelowSpelled(c, n);
    }
  }

  // Slots follow their life cycle, ...
  lemma LifeCycleExactly(n: nat, p: Names -> bool)
    requires n < MAX_SLOTS && forall c :: p(c) ==> FreeNames(c)
    ensures AlwaysInOrder(W.Received, n, p) <==> forall c :: p(c) ==> ReadsNoOther(c, n)
  {
    TextsAreSound();
    NeverStraysExactly(W.Received, n, p);
    forall c | p(c) ensures NeverStrays(W.Received, c, n) <==> ReadsNoOther(c, n) {
      NeverStraysSpelled(c, n);
    }
  }

  // ... and their count is right, if and only if no session reads the number of another slot from a
  // bundle.
  lemma CountExactly(n: nat, p: Names -> bool)
    requires n < MAX_SLOTS && forall c :: p(c) ==> FreeNames(c)
    ensures AlwaysCounted(W.Received, n, p) <==> forall c :: p(c) ==> ReadsNoOther(c, n)
  {
    TextsAreSound();
    ConservationExactly(W.Received, n, p);
    if OnlyPinnedStrays(W.Received, p, n) {
      forall c | p(c) ensures ReadsNoOther(c, n) {
        NeverStraysSpelled(c, n);
        if !NeverStrays(W.Received, c, n) {
          var g, k := StraysSomewhere(W.Received, c, n);
          StraysAreNeverPinned(c, g, k, n, p);
        }
      }
    }
    if forall c :: p(c) ==> ReadsNoOther(c, n) {
      forall c, g: nat, k: nat | p(c) && StraysInto(W.Received, c, g, k, n) ensures false {
        NeverStraysSpelled(c, n);
      }
    }
  }

  /* ---- When every message arrives ---- */

  predicate OnlyLaunches(steps: seq<Step>, c: Names) {
    forall k :: 0 <= k < |steps| && steps[k].Connect? ==> steps[k] == Launching(c)
  }

  // In every run in which only applications of these names are launched, every message on its way is
  // received as sent.
  ghost predicate LaunchesArrive(n: nat, c: Names) {
    forall steps :: OnlyLaunches(steps, c) && CanRun(W.Received, Init(n), steps)
      ==> AllAsSent(W.Received, Run(W.Received, Init(n), steps))
  }

  lemma OnlyLaunchesJoin(a: seq<Step>, b: seq<Step>, c: Names)
    requires OnlyLaunches(a, c) && OnlyLaunches(b, c)
    ensures OnlyLaunches(a + b, c)
  {
  }

  lemma {:induction false} PathsOnlyLaunch(c: Names, m: nat)
    ensures OnlyLaunches(LaunchPaths(Repeat(c, m)), c)
  {
    if m > 0 {
      PathsOnlyLaunch(c, m - 1);
      assert Repeat(c, m)[..m - 1] == Repeat(c, m - 1);
      OnlyLaunchesJoin(LaunchPaths(Repeat(c, m - 1)), LaunchPath(c, m - 1), c);
    }
  }

  lemma FittingLaunchesArrive(n: nat, c: Names)
    requires n < MAX_SLOTS && LaunchFits(c.appname, c.activity, n)
    ensures LaunchesArrive(n, c)
  {
    forall steps | OnlyLaunches(steps, c) && CanRun(W.Received, Init(n), steps)
      ensures AllAsSent(W.Received, Run(W.Received, Init(n), steps))
    {
      assert Fitting(steps, n);
      TextRunsAreRuns(n, steps);
      AllFitsArrive(Run(W.Received, Init(n), steps), n);
    }
  }

  lemma ArriveIn(n: nat, c: Names, steps: seq<Step>, s: State)
    requires LaunchesArrive(n, c) && OnlyLaunches(steps, c)
    requires CanRun(W.Received, Init(n), steps) && Run(W.Received, Init(n), steps) == s
    ensures AllAsSent(W.Received, s)
  {
  }

  // A CHECK that is misread is on its way after the first connect.
  lemma CheckMustArrive(n: nat, c: Names)
    requires LaunchesArrive(n, c)
    ensures NamesArrivable(c.appname, c.activity)
  {
    var t := With(Init(n), Stage(c, 0, 0));
    Launches(W.Received, Init(n), c);
    RunStep(W.Received, Init(n), Launching(c), []);
    ArriveIn(n, c, [Launching(c)] + [], t);
    assert t.links[0] == Stage(c, 0, 0);
    assert ReqCheck(c.appname, c.activity) in Pending(t.links[0]);
    NamesReceivedExactly(ReqCheck(c.appname, c.activity), c.pkgname);
  }

  lemma ArrivableGets(c: Names)
    requires NamesArrivable(c.appname, c.activity)
    ensures Gets(W.Received, c)
  {
    NamesReceivedExactly(ReqCheck(c.appname, c.activity), c.pkgname);
    NamesReceivedExactly(ReqGetIdle(c.appname, c.activity), c.pkgname);
  }

  lemma BundleOnItsWay(s: State, c: Names, g: nat)
    requires AllAsSent(W.Received, s) && g < |s.links| && s.links[g] == Ready(c, g)
    ensures W.Received(ReqSetBundle(c.appname, c.activity, g), c.pkgname)
         == Some(ReqSetBundle(c.appname, c.activity, g))
  {
    assert Pending(s.links[g])[0] == ReqSetBundle(c.appname, c.activity, g);
  }

  // A bundle for slot `g` is on its way after `g + 1` launches.
  lemma LaunchedArrive(n: nat, c: Names, g: nat)
    requires g < n < MAX_SLOTS && LaunchesArrive(n, c) && Sound(W.Received) && Gets(W.Received, c)
    ensures AllAsSent(W.Received, Launched(Repeat(c, g + 1), n))
  {
    PathsOnlyLaunch(c, g + 1);
    RepeatedLaunches(W.Received, n, c, g);
    ArriveIn(n, c, LaunchPaths(Repeat(c, g + 1)), Launched(Repeat(c, g + 1), n));
  }

  lemma BundleArrives(n: nat, c: Names, g: nat)
    requires g < n && AllAsSent(W.Received, Launched(Repeat(c, g + 1), n))
    ensures W.Received(ReqSetBundle(c.appname, c.activity, g), c.pkgname)
         == Some(ReqSetBundle(c.appname, c.activity, g))
  {
    BundleOnItsWay(Launched(Repeat(c, g + 1), n), c, g);
  }

  lemma BundleMustArrive(n: nat, c: Names, g: nat)
    requires g < n < MAX_SLOTS && LaunchesArrive(n, c)
    ensures BundleArrivable(c.appname, c.activity, g)
  {
    TextsAreSound();
    CheckMustArrive(n, c);
    ArrivableGets(c);
    LaunchedArrive(n, c, g);
    BundleArrives(n, c, g);
    BundleReceivedExactly(ReqSetBundle(c.appname, c.activity, g), c.pkgname);
  }

  // The names of a launch fit if and only if in no run a message of such launches is misread.
  lemma LaunchFitsExactly(n: nat, c: Names)
    requires n < MAX_SLOTS && '\0' !in c.appname && '\0' !in c.activity
    ensures LaunchesArrive(n, c) <==> LaunchFits(c.appname, c.activity, n)
  {
    if LaunchFits(c.appname, c.activity, n) {
      FittingLaunchesArrive(n, c);
    }
    if LaunchesArrive(n, c) {
      CheckMustArrive(n, c);
      forall g | 0 <= g < n ensures BundleArrivable(c.appname, c.activity, g) {
        BundleMustArrive(n, c, g);
      }
    }
  }

  /* ---- Inputs that are misread ---- */

  // An application whose activity poses as slot `k`.
  function Poser(appname: string, k: int): Names { Names(appname, "", Posing(k)) }

  lemma PoserReads(appname: string, k: int, g: int)
    requires Harmless(appname) && IsInt32(k) && IsInt32(g)
    ensures Gets(W.Received, Poser(appname, k))
    ensures BundleRead(W.Received, Poser(appname, k), g) == Some(ReqSetBundle(appname, Posing(k), k))
  {
    PosingNumber(k);
    FindIsFound(appname, W.ACTIVITY);
    ArrivableGets(Poser(appname, k));
    BundleMisread(appname, g, k);
  }

  function MisreadPath(c: Names): seq<Step> { LaunchPaths(Repeat(c, 1)) + BundlePath(0) }

  // One launch, and its bundle handled.
  lemma MisreadRun(appname: string, n: nat, k: int)
    requires Harmless(appname) && 1 <= n < MAX_SLOTS && IsInt32(k)
    ensures CanRun(W.Received, Init(n), MisreadPath(Poser(appname, k)))
    ensures var t := Run(W.Received, Init(n), MisreadPath(Poser(appname, k)));
            && t.fault == (k < 0) && t.grants == 1 && t.closes == 0
            && t.slots == (if 0 <= k < n then FirstTaken(n, 1)[k := Slot(Used, appname, Posing(k))]
                           else FirstTaken(n, 1))
  {
    var c := Poser(appname, k);
    TextsAreSound();
    PoserReads(appname, k, 0);
    RepeatedLaunches(W.Received, n, c, 0);
    HandledAs(W.Received, n, c, appname, Posing(k), k);
    RunJoin(W.Received, Init(n), LaunchPaths(Repeat(c, 1)), BundlePath(0));
  }

  lemma HandledAs(r: Reader, n: nat, c: Names, appname: string, activity: string, k: int)
    requires Sound(r) && n >= 1 && BundleRead(r, c, 0) == Some(ReqSetBundle(appname, activity, k))
    ensures var s := Launched(Repeat(c, 1), n);
            && CanRun(r, s, BundlePath(0))
            && var t := Run(r, s, BundlePath(0));
               && t.fault == (k < 0) && t.grants == 1 && t.closes == 0
               && t.slots == (if 0 <= k < n then s.slots[k := Slot(Used, appname, activity)] else s.slots)
               && s.slots == FirstTaken(n, 1)
  {
    BundleHandled(r, Launched(Repeat(c, 1), n), c, 0);
  }

  // A launch can make the daemon write below its table, ...
  lemma NegativeIndexReached(appname: string, n: nat, k: int)
    requires Harmless(appname) && 1 <= n < MAX_SLOTS && IsInt32(k) && k < 0
    ensures CanRun(W.Received, Init(n), MisreadPath(Poser(appname, k)))
    ensures Run(W.Received, Init(n), MisreadPath(Poser(appname, k))).fault
  {
    MisreadRun(appname, n, k);
  }

  // ... or use a slot that nobody was granted, so that two slots are out for one grant and its own
  // stays reserved.
  lemma UngrantedSlotUsed(appname: string, n: nat, k: int)
    requires Harmless(appname) && 1 <= k < n < MAX_SLOTS
    ensures CanRun(W.Received, Init(n), MisreadPath(Poser(appname, k)))
    ensures var t := Run(W.Received, Init(n), MisreadPath(Poser(appname, k)));
            && |t.slots| == n && t.slots[k].status == Used && t.slots[0].status == Reserved
            && t.grants == 1 && t.closes == 0 && Busy(t.slots) == 2
  {
    MisreadRun(appname, n, k);
    BusyTaken(n, 1);
    BusyUpdate(FirstTaken(n, 1), k, Slot(Used, appname, Posing(k)));
  }

  lemma PoserStaysAbove(appname: string, n: nat, k: nat)
    requires Harmless(appname) && n < MAX_SLOTS && k < n
    ensures NeverBelow(W.Received, Poser(appname, k), n)
  {
    forall g | 0 <= g < n
      ensures BundleRead(W.Received, Poser(appname, k), g) == Some(ReqSetBundle(appname, Posing(k), k))
    {
      PoserReads(appname, k, g);
    }
  }

  lemma PoserStrays(appname: string, n: nat, k: nat, g: nat)
    requires Harmless(appname) && n < MAX_SLOTS && k < n && g < n && g != k
    ensures StraysInto(W.Received, Poser(appname, k), g, k, n)
    ensures !LaunchFits(appname, Posing(k), n)
  {
    PoserReads(appname, k, g);
    BundleReceivedExactly(ReqSetBundle(appname, Posing(k), g), "");
  }

  lemma StrayingStrays(r: Reader, c: Names, g: nat, k: nat, n: nat)
    requires StraysInto(r, c, g, k, n)
    ensures !NeverStrays(r, c, n)
  {
  }

  // An activity that poses as a slot of the table does not fit, and spoils the table, but never makes a
  // session leave it: to fit is more than the bounds of the table need.
  lemma MisreadYetInside(appname: string, n: nat, k: nat)
    requires Harmless(appname) && 2 <= n < MAX_SLOTS && k < n
    ensures NeverBelow(W.Received, Poser(appname, k), n)
    ensures !LaunchFits(appname, Posing(k), n) && !NeverStrays(W.Received, Poser(appname, k), n)
  {
    var g := if k == 0 then 1 else 0;
    PoserStaysAbove(appname, n, k);
    PoserStrays(appname, n, k, g);
    StrayingStrays(W.Received, Poser(appname, k), g, k, n);
  }

  /* ---- Requests to close that match nothing ---- */

  // A session's request to close `appname` has found no slot, and the daemon, which takes its global
  // close next, may tell session `j`.
  ghost predicate TellsUnmatched(r: Reader, n: nat, steps: seq<Step>, appname: string, j: nat) {
    && CanRun(r, Init(n), steps)
    && var s := Run(r, Init(n), steps);
       s.global != [] && s.global[0] == NotifyCloseByName(appname, -1) && GlobalEnabled(r, s, Some(j))
  }

  // The daemon reads a slot of its table from such a close.
  predicate StrayClose(r: Reader, appname: string, n: nat) {
    var e := r(NotifyCloseByName(appname, -1), "");
    e.Some? && e.value.NotifyCloseByName? && 0 <= e.value.id < n
  }

  // Some request of this name that finds no slot can have an application closed.
  ghost predicate CanTellUnmatched(r: Reader, n: nat, appname: string) {
    exists steps, j :: TellsUnmatched(r, n, steps, appname, j)
  }

  lemma ToldCarriesSlot(r: Reader, n: nat, steps: seq<Step>, appname: string, j: nat)
    requires Sound(r) && n < MAX_SLOTS && TellsUnmatched(r, n, steps, appname, j)
    ensures StrayClose(r, appname, n)
  {
    ReachableInv(r, n, steps);
    assert OwnsGrant(Run(r, Init(n), steps), j);
  }

  // One who asks for a close.
  function Asker(appname: string, pkgname: string, inbox: seq<Event>, up: seq<Event>): Link {
    var l := Fresh(CloseByName, appname, pkgname, "");
    l.(session := l.session.(inbox := inbox), up := up)
  }

  function AskPath(appname: string, pkgname: string, j: nat): seq<Step> {
    [Connect(CloseByName, appname, pkgname, "")] + [UpDeliver(j), SessionStep(j)]
  }

  // A request that is read as one for `read`, which no used slot matches.
  lemma AskerAnswered(r: Reader, s: State, appname: string, pkgname: string, read: string)
    requires r(ReqCloseByName(appname), pkgname) == Some(ReqCloseByName(read)) && NobodyRuns(s.slots, read)
    ensures var j, l := |s.links|, Asker(appname, pkgname, [], [ReqCloseByName(appname)]);
            && CanRun(r, With(s, l), [UpDeliver(j), SessionStep(j)])
            && var t := Run(r, With(s, l), [UpDeliver(j), SessionStep(j)]);
               && t.global == s.global + [NotifyCloseByName(read, -1)] && t.slots == s.slots && |t.links| == j + 1
               && forall i :: 0 <= i < j ==> t.links[i] == s.links[i]
  {
    var j, request := |s.links|, ReqCloseByName(appname);
    var l0, l1 := Asker(appname, pkgname, [], [request]), Asker(appname, pkgname, [request], []);
    SingleHead(request);
    assert LocalMove(r, l0, UpDeliver(j)) == l1;
    LocalOnto(r, s, l0, UpDeliver(j), l1);
    assert Enabled(r, With(s, l1), SessionStep(j)) && Heard(r, l1) == ReqCloseByName(read);
    CloseIsExact(l1.session.running, l1.session.slotId, s.slots, read);
    RunTwo(r, With(s, l0), UpDeliver(j), SessionStep(j));
  }

  lemma Asks(r: Reader, s: State, appname: string, pkgname: string, read: string)
    requires r(ReqCloseByName(appname), pkgname) == Some(ReqCloseByName(read))
    requires NobodyRuns(s.slots, read) && s.global == []
    ensures CanRun(r, s, AskPath(appname, pkgname, |s.links|))
    ensures var t := Run(r, s, AskPath(appname, pkgname, |s.links|));
            && t.global == [NotifyCloseByName(read, -1)] && t.slots == s.slots && |t.links| == |s.links| + 1
            && forall i :: 0 <= i < |s.links| ==> t.links[i] == s.links[i]
  {
    var connect := Connect(CloseByName, appname, pkgname, "");
    AskerAnswered(r, s, appname, pkgname, read);
    assert Apply(r, s, connect) == With(s, Asker(appname, pkgname, [], [ReqCloseByName(appname)]));
    RunStep(r, s, connect, [UpDeliver(|s.links|), SessionStep(|s.links|)]);
  }

  // The steps of `k + 1` launches of names `c`, and of the request.
  function StrayClosePath(c: Names, k: nat, appname: string, pkgname: string): seq<Step> {
    LaunchPaths(Repeat(c, k + 1)) + AskPath(appname, pkgname, k + 1)
  }

  lemma NobodyRunsYet(n: nat, m: nat, appname: string)
    ensures NobodyRuns(FirstTaken(n, m), appname)
  {
  }

  // After the request `k + 1` launches still stand where they stood.
  predicate Unmatched(t: State, c: Names, k: nat, read: string) {
    && t.global == [NotifyCloseByName(read, -1)] && NobodyRuns(t.slots, read)
    && |t.links| == k + 2 && t.links[k] == Ready(c, k)
  }

  lemma UnmatchedAsk(r: Reader, s: State, c: Names, appname: string, pkgname: string, read: string, k: nat)
    requires |s.links| == k + 1 && s.links[k] == Ready(c, k) && NobodyRuns(s.slots, read) && s.global == []
    requires r(ReqCloseByName(appname), pkgname) == Some(ReqCloseByName(read))
    ensures CanRun(r, s, AskPath(appname, pkgname, k + 1))
    ensures Unmatched(Run(r, s, AskPath(appname, pkgname, k + 1)), c, k, read)
  {
    Asks(r, s, appname, pkgname, read);
  }

  lemma UnmatchedRun(r: Reader, n: nat, c: Names, appname: string, pkgname: string, read: string, k: nat)
    requires Sound(r) && k < n < MAX_SLOTS && Gets(r, c)
    requires r(ReqCloseByName(appname), pkgname) == Some(ReqCloseByName(read))
    ensures CanRun(r, Init(n), StrayClosePath(c, k, appname, pkgname))
    ensures Unmatched(Run(r, Init(n), StrayClosePath(c, k, appname, pkgname)), c, k, read)
  {
    var s := Launched(Repeat(c, k + 1), n);
    RepeatedLaunches(r, n, c, k);
    NobodyRunsYet(n, k + 1, read);
    UnmatchedAsk(r, s, c, appname, pkgname, read, k);
    RunJoin(r, Init(n), LaunchPaths(Repeat(c, k + 1)), AskPath(appname, pkgname, k + 1));
  }

  // A request that matches no used slot can have another application closed exactly if the daemon reads
  // a slot of its table from the global close that says there is none.
  lemma UnmatchedTellsExactly(r: Reader, n: nat, c: Names, appname: string, pkgname: string, read: string)
    requires Sound(r) && n < MAX_SLOTS && Gets(r, c)
    requires r(ReqCloseByName(appname), pkgname) == Some(ReqCloseByName(read))
    ensures CanTellUnmatched(r, n, read) <==> StrayClose(r, read, n)
  {
    if StrayClose(r, read, n) {
      var k: nat := r(NotifyCloseByName(read, -1), "").value.id;
      UnmatchedRun(r, n, c, appname, pkgname, read, k);
      assert TellsUnmatched(r, n, StrayClosePath(c, k, appname, pkgname), read, k);
    }
    if steps, j :| TellsUnmatched(r, n, steps, read, j) {
      ToldCarriesSlot(r, n, steps, read, j);
    }
  }

  // The slot that the daemon reads from the global close of a name without delimiters.
  function CloseRead(appname: string): Option<int> {
    if |appname| <= 225 then ReadAs(NumberOf(appname, "-1")) else None
  }

  lemma CloseReadIsRead(appname: string)
    requires Free(appname)
    ensures var e := W.Received(NotifyCloseByName(appname, -1), "");
            && e.Some? == CloseRead(appname).Some?
            && (e.Some? ==> e.value.NotifyCloseByName? && e.value.id == CloseRead(appname).value)
  {
    var e := NotifyCloseByName(appname, -1);
    assert Decimal(-1) == "-1";
    if |appname| <= 225 {
      CloseReceived(e, "");
    } else {
      CloseTooLong(e, "");
    }
  }

  // In any state: the global close that says that no slot was found tells some session if and only if
  // the number that is read from it is that of a slot which a session on the daemon's map carries.
  lemma UnmatchedToldExactly(s: State, appname: string)
    requires s.global != [] && s.global[0] == NotifyCloseByName(appname, -1) && Free(appname)
    ensures (exists j: nat :: GlobalEnabled(W.Received, s, Some(j)))
            <==> CloseRead(appname).Some? && CloseRead(appname).value >= 0
                 && exists j :: 0 <= j < |s.links| && Carries(s.links[j], CloseRead(appname).value)
  {
    CloseReadIsRead(appname);
    if CloseRead(appname).Some? && CloseRead(appname).value >= 0 {
      forall j: nat ensures GlobalEnabled(W.Received, s, Some(j))
                            <==> j < |s.links| && Carries(s.links[j], CloseRead(appname).value)
      {
      }
    }
  }

  predicate Carries(l: Link, slot: int) { l.session.registered && l.session.slotId == slot }

  // On texts: a request for an application that nobody runs can close another one if and only if its
  // name holds "lg_instance_id" with the number of a slot behind it.
  lemma UnmatchedExactly(n: nat, appname: string, pkgname: string)
    requires n < MAX_SLOTS && RequestArrivable(appname, pkgname)
    ensures CanTellUnmatched(W.Received, n, appname)
            <==> CloseRead(appname).Some? && 0 <= CloseRead(appname).value < n
  {
    TextsAreSound();
    RequestArrives(appname, pkgname);
    var c := SomebodyGets();
    UnmatchedTellsExactly(W.Received, n, c, appname, pkgname, appname);
    CloseReadIsRead(appname);
  }

  lemma RequestArrives(appname: string, pkgname: string)
    requires RequestArrivable(appname, pkgname)
    ensures W.Received(ReqCloseByName(appname), pkgname) == Some(ReqCloseByName(appname)) && Free(appname)
  {
    RequestReceivedExactly(ReqCloseByName(appname), pkgname);
  }

  lemma SomebodyGets() returns (c: Names)
    ensures Gets(W.Received, c)
  {
    c := Names("a", "", "b");
    TooShortToContain("a", W.ACTIVITY);
    W.ReceivedAsSent(ReqCheck("a", "b"), "");
    W.ReceivedAsSent(ReqGetIdle("a", "b"), "");
  }

  lemma PoserAsks(k: int)
    requires IsInt32(k)
    ensures W.Received(ReqCloseByName(Posing(k)), "") == Some(ReqCloseByName(Posing(k)))
  {
    PosingNumber(k);
    W.ReceivedAsSent(ReqCloseByName(Posing(k)), "");
  }

  lemma StrayIsTold(r: Reader, t: State, c: Names, read: string, k: nat)
    requires t.global == [NotifyCloseByName(read, -1)] && k < |t.links| && t.links[k] == Ready(c, k)
    requires r(NotifyCloseByName(read, -1), "") == Some(NotifyCloseByName(read, k))
    ensures CanRun(r, t, [GlobalStep(Some(k))])
    ensures var u := Run(r, t, [GlobalStep(Some(k))]);
            u.slots == t.slots && |u.links| == |t.links| && u.links[k] == Tell(Ready(c, k))
  {
    RunStep(r, t, GlobalStep(Some(k)), []);
  }

  // A request to close `lg_instance_id:k` has the application in slot `k` closed, although no used slot
  // matches it.
  lemma AnotherIsClosed(c: Names, n: nat, k: nat)
    requires k < n < MAX_SLOTS && NamesArrivable(c.appname, c.activity)
    ensures var path := StrayClosePath(c, k, Posing(k), "") + [GlobalStep(Some(k))];
            && CanRun(W.Received, Init(n), path)
            && var t := Run(W.Received, Init(n), path);
               && NobodyRuns(t.slots, Posing(k))
               && |t.links| > k && t.links[k] == Tell(Ready(c, k))
  {
    TextsAreSound();
    ArrivableGets(c);
    PoserAsks(k);
    UnmatchedRun(W.Received, n, c, Posing(k), "", Posing(k), k);
    CloseMisread(-1, k);
    var path := StrayClosePath(c, k, Posing(k), "");
    StrayIsTold(W.Received, Run(W.Received, Init(n), path), c, Posing(k), k);
    RunJoin(W.Received, Init(n), path, [GlobalStep(Some(k))]);
  }
}
