// Runs of the daemon up to the bundles of some launches, and what a bundle and a close then do.

module ProtocolLaunches {
  import opened Wrappers
  import opened Events
  import opened Slots
  import opened LGLauncher
  import opened Protocol
  import opened ProtocolInvariant
  import opened ProtocolSafety
  import opened ProtocolTable

  /* ---- A daemon with some launches, each with its bundle on the way ---- */

  function Ready(c: Names, g: nat): Link {
    var core := Started(c.appname, c.pkgname, c.activity).(instanceId := Some(g), threadCreated := true);
    var bundle := ReqSetBundle(c.appname, c.activity, g);
    Link(Session(true, g, true, true, []), Client(Launch, core, true, true, Loading, []), [bundle], [],
         [ReqCheck(c.appname, c.activity), ReqGetIdle(c.appname, c.activity), bundle], 2, Some(g))
  }

  // The first `m` of `n` slots are reserved.
  function FirstTaken(n: nat, m: nat): seq<Slot> {
    seq(n, k => Slot(if k < m then Reserved else Idle, "", ""))
  }

  function FirstOwned(n: nat, m: nat): seq<Option<nat>> {
    seq(n, k requires 0 <= k => if k < m then Some(k as nat) else None)
  }

  function Launched(cs: seq<Names>, n: nat): State {
    State(FirstTaken(n, |cs|), seq(|cs|, g requires 0 <= g < |cs| => Ready(cs[g], g)), [], FirstOwned(n, |cs|),
          |cs|, 0, false)
  }

  function Launching(c: Names): Step { Connect(Launch, c.appname, c.pkgname, c.activity) }

  // Half of the steps of a launch: a message of the launcher is answered.
  function Exchange(i: nat): seq<Step> { [UpDeliver(i), SessionStep(i)] + [DownDeliver(i), ClientStep(i)] }

  // The steps of one launch up to its bundle.
  function LaunchPath(c: Names, i: nat): seq<Step> { [Launching(c)] + (Exchange(i) + Exchange(i)) }

  function LaunchPaths(cs: seq<Names>): seq<Step> {
    if cs == [] then [] else LaunchPaths(cs[..|cs| - 1]) + LaunchPath(cs[|cs| - 1], |cs| - 1)
  }

  /* One launch, move by move. */

  function With(s: State, l: Link): State { s.(links := s.links + [l]) }

  lemma LocalOnto(r: Reader, s: State, l: Link, step: Step, l': Link)
    requires IsLocal(step) && step.i == |s.links| && LocalEnabled(r, l, step) && LocalMove(r, l, step) == l'
    ensures Enabled(r, With(s, l), step) && Apply(r, With(s, l), step) == With(s, l')
  {
    assert With(s, l).links[step.i := l'] == s.links + [l'];
  }

  // Where a launch stands after `k` of its moves.
  function Stage(c: Names, g: nat, k: nat): Link {
    var l := Fresh(Launch, c.appname, c.pkgname, c.activity);
    var check, request := ReqCheck(c.appname, c.activity), ReqGetIdle(c.appname, c.activity);
    var asked := l.(up := [], handled := 1);
    var asking := l.(handled := 1, sent := [check, request]);
    var granted := asking.(up := [], handled := 2, granted := Some(g), session := l.session.(slotId := g));
    match k
    case 0 => l
    case 1 => l.(session := l.session.(inbox := [check]), up := [])
    case 2 => asked.(down := [ResCheck(-1)])
    case 3 => asked.(client := l.client.(inbox := [ResCheck(-1)]))
    case 4 => asking.(up := [request])
    case 5 => asking.(up := [], session := l.session.(inbox := [request]))
    case 6 => granted.(down := [ResIdleSlot(g)])
    case 7 => granted.(client := l.client.(inbox := [ResIdleSlot(g)]))
    case _ => Ready(c, g)
  }

  lemma SingleHead(e: Event)
    ensures [e][1..] == [] && [] + [e] == [e]
  {
  }

  lemma UpStages(r: Reader, c: Names, g: nat, i: nat)
    ensures LocalEnabled(r, Stage(c, g, 0), UpDeliver(i))
    ensures LocalMove(r, Stage(c, g, 0), UpDeliver(i)) == Stage(c, g, 1)
    ensures LocalEnabled(r, Stage(c, g, 4), UpDeliver(i))
    ensures LocalMove(r, Stage(c, g, 4), UpDeliver(i)) == Stage(c, g, 5)
  {
    SingleHead(ReqCheck(c.appname, c.activity));
    SingleHead(ReqGetIdle(c.appname, c.activity));
  }

  lemma DownStages(r: Reader, c: Names, g: nat, i: nat)
    ensures LocalEnabled(r, Stage(c, g, 2), DownDeliver(i))
    ensures LocalMove(r, Stage(c, g, 2), DownDeliver(i)) == Stage(c, g, 3)
    ensures LocalEnabled(r, Stage(c, g, 6), DownDeliver(i))
    ensures LocalMove(r, Stage(c, g, 6), DownDeliver(i)) == Stage(c, g, 7)
  {
    SingleHead(ResCheck(-1));
    SingleHead(ResIdleSlot(g));
  }

  lemma AskingStage(r: Reader, c: Names, g: nat, i: nat)
    requires Sound(r)
    ensures LocalEnabled(r, Stage(c, g, 3), ClientStep(i))
    ensures LocalMove(r, Stage(c, g, 3), ClientStep(i)) == Stage(c, g, 4)
  {
    assert Nameless(ResCheck(-1));
    SingleHead(ResCheck(-1));
    SingleHead(ReqGetIdle(c.appname, c.activity));
    assert [ReqCheck(c.appname, c.activity)] + [ReqGetIdle(c.appname, c.activity)]
        == [ReqCheck(c.appname, c.activity), ReqGetIdle(c.appname, c.activity)];
  }

  lemma ReadyStage(r: Reader, c: Names, g: nat, i: nat)
    requires Sound(r) && g < MAX_SLOTS
    ensures LocalEnabled(r, Stage(c, g, 7), ClientStep(i))
    ensures LocalMove(r, Stage(c, g, 7), ClientStep(i)) == Stage(c, g, 8)
  {
    assert Nameless(ResIdleSlot(g));
    assert r(Stage(c, g, 7).client.inbox[0], "") == Some(ResIdleSlot(g));
    ReadyReacts(c, g);
  }

  lemma ReadyReacts(c: Names, g: nat)
    ensures Reacts(Stage(c, g, 7), ResIdleSlot(g)) == Ready(c, g)
  {
    SingleHead(ResIdleSlot(g));
    SingleHead(ReqSetBundle(c.appname, c.activity, g));
    assert [ReqCheck(c.appname, c.activity), ReqGetIdle(c.appname, c.activity)]
         + [ReqSetBundle(c.appname, c.activity, g)] == Ready(c, g).sent;
  }

  lemma FirstIdle(n: nat, m: nat, q: Query)
    requires m < n
    ensures First(FirstTaken(n, m), AnyIdle) == m
    ensures !q.AnyIdle? ==> First(FirstTaken(n, m), q) == -1
  {
    FirstIsLowest(FirstTaken(n, m), AnyIdle, m);
    if !q.AnyIdle? {
      FirstIsLowest(FirstTaken(n, m), q, -1);
    }
  }

  // The session's answer to the message at the head of its queue replaces the last connection.
  lemma AnswerOnto(r: Reader, s: State, l: Link, t: State, l': Link)
    requires SessionReady(r, l) && Answered(l, Answer(l, s.slots, Heard(r, l))) == l'
    requires SessionMove(With(s, l), |s.links|, Heard(r, l)).(links := s.links) == t && t.links == s.links
    ensures Enabled(r, With(s, l), SessionStep(|s.links|))
    ensures Apply(r, With(s, l), SessionStep(|s.links|)) == With(t, l')
  {
    assert With(s, l).links[|s.links| := l'] == s.links + [l'];
  }

  lemma CheckAnswered(r: Reader, cs: seq<Names>, n: nat, c: Names)
    requires Sound(r) && |cs| < n && Gets(r, c)
    ensures var s := Launched(cs, n);
            && Enabled(r, With(s, Stage(c, |cs|, 1)), SessionStep(|cs|))
            && Apply(r, With(s, Stage(c, |cs|, 1)), SessionStep(|cs|)) == With(s, Stage(c, |cs|, 2))
  {
    var s := Launched(cs, n);
    var l := Stage(c, |cs|, 1);
    var check := ReqCheck(c.appname, c.activity);
    assert Alike(r(check, c.pkgname).value, check);
    FirstIdle(n, |cs|, RunningActivity(Heard(r, l).activity));
    SingleHead(check);
    SingleHead(ResCheck(-1));
    AnswerOnto(r, s, l, s, Stage(c, |cs|, 2));
  }

  // After the grant the table and the records are those of one launch more.
  function Granted(cs: seq<Names>, n: nat, c: Names): State {
    Launched(cs + [c], n).(links := Launched(cs, n).links)
  }

  lemma GrantedTable(n: nat, m: nat)
    requires m < n
    ensures FirstTaken(n, m)[m := FirstTaken(n, m)[m].(status := Reserved)] == FirstTaken(n, m + 1)
    ensures FirstOwned(n, m)[m := Some(m)] == FirstOwned(n, m + 1)
  {
  }

  lemma RequestAnswered(r: Reader, cs: seq<Names>, n: nat, c: Names)
    requires Sound(r) && |cs| < n && Gets(r, c)
    ensures var s := Launched(cs, n);
            && Enabled(r, With(s, Stage(c, |cs|, 5)), SessionStep(|cs|))
            && Apply(r, With(s, Stage(c, |cs|, 5)), SessionStep(|cs|)) == With(Granted(cs, n, c), Stage(c, |cs|, 6))
  {
    var s := Launched(cs, n);
    var l := Stage(c, |cs|, 5);
    var request := ReqGetIdle(c.appname, c.activity);
    assert Alike(r(request, c.pkgname).value, request);
    RequestOnto(l, cs, n, c, Heard(r, l));
    AnswerOnto(r, s, l, Granted(cs, n, c), Stage(c, |cs|, 6));
  }

  lemma RequestOnto(l: Link, cs: seq<Names>, n: nat, c: Names, e: Event)
    requires |cs| < n && l == Stage(c, |cs|, 5) && e.ReqGetIdle?
    ensures var s := Launched(cs, n);
            && Answered(l, Answer(l, s.slots, e)) == Stage(c, |cs|, 6)
            && SessionMove(With(s, l), |cs|, e).(links := s.links) == Granted(cs, n, c)
  {
    FirstIdle(n, |cs|, AnyIdle);
    GrantedTable(n, |cs|);
    SingleHead(ReqGetIdle(c.appname, c.activity));
    SingleHead(ResIdleSlot(|cs|));
  }

  lemma RunTwo(r: Reader, s: State, a: Step, b: Step)
    requires Enabled(r, s, a) && Enabled(r, Apply(r, s, a), b)
    ensures CanRun(r, s, [a, b]) && Run(r, s, [a, b]) == Apply(r, Apply(r, s, a), b)
  {
    RunStep(r, Apply(r, s, a), b, []);
    RunStep(r, s, a, [b]);
    assert [a] + [b] == [a, b];
  }

  lemma RunJoinTo(r: Reader, s: State, a: seq<Step>, t: State, b: seq<Step>, u: State)
    requires CanRun(r, s, a) && Run(r, s, a) == t && CanRun(r, t, b) && Run(r, t, b) == u
    ensures CanRun(r, s, a + b) && Run(r, s, a + b) == u
  {
    RunJoin(r, s, a, b);
  }

  // CHECK: delivered, answered, delivered back, GET_IDLE sent.
  lemma CheckPhase(r: Reader, cs: seq<Names>, n: nat, c: Names)
    requires Sound(r) && |cs| < n && Gets(r, c)
    ensures var s := Launched(cs, n);
            && CanRun(r, With(s, Stage(c, |cs|, 0)), Exchange(|cs|))
            && Run(r, With(s, Stage(c, |cs|, 0)), Exchange(|cs|)) == With(s, Stage(c, |cs|, 4))
  {
    var s, m := Launched(cs, n), |cs|;
    UpStages(r, c, m, m);
    LocalOnto(r, s, Stage(c, m, 0), UpDeliver(m), Stage(c, m, 1));
    CheckAnswered(r, cs, n, c);
    RunTwo(r, With(s, Stage(c, m, 0)), UpDeliver(m), SessionStep(m));
    DownStages(r, c, m, m);
    LocalOnto(r, s, Stage(c, m, 2), DownDeliver(m), Stage(c, m, 3));
    AskingStage(r, c, m, m);
    LocalOnto(r, s, Stage(c, m, 3), ClientStep(m), Stage(c, m, 4));
    RunTwo(r, With(s, Stage(c, m, 2)), DownDeliver(m), ClientStep(m));
    RunJoin(r, With(s, Stage(c, m, 0)), [UpDeliver(m), SessionStep(m)], [DownDeliver(m), ClientStep(m)]);
  }

  // GET_IDLE: delivered, granted, delivered back, SET_BUNDLE sent.
  lemma RequestPhase(r: Reader, cs: seq<Names>, n: nat, c: Names)
    requires Sound(r) && |cs| < n < MAX_SLOTS && Gets(r, c)
    ensures var s := Launched(cs, n);
            && CanRun(r, With(s, Stage(c, |cs|, 4)), Exchange(|cs|))
            && Run(r, With(s, Stage(c, |cs|, 4)), Exchange(|cs|)) == With(Granted(cs, n, c), Stage(c, |cs|, 8))
  {
    var s, t, m := Launched(cs, n), Granted(cs, n, c), |cs|;
    UpStages(r, c, m, m);
    LocalOnto(r, s, Stage(c, m, 4), UpDeliver(m), Stage(c, m, 5));
    RequestAnswered(r, cs, n, c);
    RunTwo(r, With(s, Stage(c, m, 4)), UpDeliver(m), SessionStep(m));
    DownStages(r, c, m, m);
    LocalOnto(r, t, Stage(c, m, 6), DownDeliver(m), Stage(c, m, 7));
    ReadyStage(r, c, m, m);
    LocalOnto(r, t, Stage(c, m, 7), ClientStep(m), Stage(c, m, 8));
    RunTwo(r, With(t, Stage(c, m, 6)), DownDeliver(m), ClientStep(m));
    RunJoin(r, With(s, Stage(c, m, 4)), [UpDeliver(m), SessionStep(m)], [DownDeliver(m), ClientStep(m)]);
  }

  lemma GrantedIsLaunched(cs: seq<Names>, n: nat, c: Names)
    requires |cs| < n
    ensures With(Granted(cs, n, c), Ready(c, |cs|)) == Launched(cs + [c], n)
  {
    assert Launched(cs, n).links + [Ready(c, |cs|)] == Launched(cs + [c], n).links;
  }

  lemma BothPhases(r: Reader, cs: seq<Names>, n: nat, c: Names)
    requires Sound(r) && |cs| < n < MAX_SLOTS && Gets(r, c)
    ensures var s := With(Launched(cs, n), Stage(c, |cs|, 0));
            && CanRun(r, s, Exchange(|cs|) + Exchange(|cs|))
            && Run(r, s, Exchange(|cs|) + Exchange(|cs|)) == Launched(cs + [c], n)
  {
    var s, m := Launched(cs, n), |cs|;
    CheckPhase(r, cs, n, c);
    RequestPhase(r, cs, n, c);
    GrantedIsLaunched(cs, n, c);
    RunJoinTo(r, With(s, Stage(c, m, 0)), Exchange(m), With(s, Stage(c, m, 4)), Exchange(m), Launched(cs + [c], n));
  }

  lemma OneLaunch(r: Reader, cs: seq<Names>, n: nat, c: Names)
    requires Sound(r) && |cs| < n < MAX_SLOTS && Gets(r, c)
    ensures CanRun(r, Launched(cs, n), LaunchPath(c, |cs|))
    ensures Run(r, Launched(cs, n), LaunchPath(c, |cs|)) == Launched(cs + [c], n)
  {
    BothPhases(r, cs, n, c);
    LaunchesOnto(r, Launched(cs, n), c, Exchange(|cs|) + Exchange(|cs|));
  }

  lemma LaunchesOnto(r: Reader, s: State, c: Names, rest: seq<Step>)
    requires CanRun(r, With(s, Stage(c, |s.links|, 0)), rest)
    ensures CanRun(r, s, [Launching(c)] + rest)
    ensures Run(r, s, [Launching(c)] + rest) == Run(r, With(s, Stage(c, |s.links|, 0)), rest)
  {
    Launches(r, s, c);
    RunStep(r, s, Launching(c), rest);
  }

  lemma Launches(r: Reader, s: State, c: Names)
    ensures Enabled(r, s, Launching(c)) && Apply(r, s, Launching(c)) == With(s, Stage(c, |s.links|, 0))
  {
  }

  lemma NothingLaunched(n: nat)
    ensures Launched([], n) == Init(n)
  {
  }

  lemma {:induction false} ManyLaunches(r: Reader, cs: seq<Names>, n: nat)
    requires Sound(r) && |cs| <= n < MAX_SLOTS && forall c :: c in cs ==> Gets(r, c)
    ensures CanRun(r, Init(n), LaunchPaths(cs)) && Run(r, Init(n), LaunchPaths(cs)) == Launched(cs, n)
    decreases |cs|
  {
    if cs == [] {
      NothingLaunched(n);
    } else {
      var front, c := cs[..|cs| - 1], cs[|cs| - 1];
      ManyLaunches(r, front, n);
      OneLaunch(r, front, n, c);
      assert front + [c] == cs;
      RunJoinTo(r, Init(n), LaunchPaths(front), Launched(front, n), LaunchPath(c, |front|), Launched(cs, n));
    }
  }

  lemma AllLaunchJoin(a: seq<Step>, b: seq<Step>, p: Names -> bool)
    requires AllLaunch(a, p) && AllLaunch(b, p)
    ensures AllLaunch(a + b, p)
  {
  }

  lemma {:induction false} PathsLaunch(cs: seq<Names>, p: Names -> bool)
    requires forall c :: c in cs ==> p(c)
    ensures AllLaunch(LaunchPaths(cs), p)
    decreases |cs|
  {
    if cs != [] {
      PathsLaunch(cs[..|cs| - 1], p);
      assert cs[|cs| - 1] in cs;
      AllLaunchJoin(LaunchPaths(cs[..|cs| - 1]), LaunchPath(cs[|cs| - 1], |cs| - 1), p);
    }
  }

  /* ---- A bundle is handled, and a launcher closes ---- */

  // The connection once its session has handled the bundle and carries slot `id`.
  function Done(c: Names, g: nat, id: int): Link {
    var l := Ready(c, g);
    l.(session := l.session.(slotId := id), up := [], handled := 3)
  }

  function BundlePath(i: nat): seq<Step> { [UpDeliver(i), SessionStep(i)] }

  lemma BundleDelivered(r: Reader, s: State, c: Names, i: nat)
    requires i < |s.links| && s.links[i] == Ready(c, i)
    ensures Enabled(r, s, UpDeliver(i))
    ensures var t := Apply(r, s, UpDeliver(i));
            && t == s.(links := t.links) && |t.links| == |s.links| && t.links == s.links[i := t.links[i]]
            && t.links[i] == Ready(c, i).(up := [], session := Ready(c, i).session.(inbox := Ready(c, i).up))
  {
    SingleHead(ReqSetBundle(c.appname, c.activity, i));
  }

  // The session takes the bundle as what it reads.
  lemma BundleAnswered(l: Link, c: Names, i: nat, slots: seq<Slot>, e: Event)
    requires l == Ready(c, i).(up := [], session := Ready(c, i).session.(inbox := Ready(c, i).up)) && e.ReqSetBundle?
    ensures var o := Answer(l, slots, e);
            && o.slots == (if 0 <= e.id < |slots| then slots[e.id := Slot(Used, e.appname, e.activity)] else slots)
            && Answered(l, o) == Done(c, i, if 0 <= e.id < |slots| then e.id else i)
            && o.replies == []
  {
    SingleHead(ReqSetBundle(c.appname, c.activity, i));
  }

  // From `s` to `t` session `i` has handled its bundle as `e`.
  predicate Bundled(s: State, t: State, c: Names, i: nat, e: Event) {
    && e.ReqSetBundle? && i < |s.links|
    && t.slots == (if 0 <= e.id < |s.slots| then s.slots[e.id := Slot(Used, e.appname, e.activity)] else s.slots)
    && t.links == s.links[i := Done(c, i, if 0 <= e.id < |s.slots| then e.id else i)]
    && t.grants == s.grants && t.closes == s.closes && t.fault == (s.fault || e.id < 0)
  }

  lemma BundleMoved(s: State, c: Names, i: nat, e: Event)
    requires i < |s.links| && e.ReqSetBundle?
    requires s.links[i] == Ready(c, i).(up := [], session := Ready(c, i).session.(inbox := Ready(c, i).up))
    ensures Bundled(s, SessionMove(s, i, e), c, i, e)
  {
    BundleAnswered(s.links[i], c, i, s.slots, e);
  }

  lemma BundleHandled(r: Reader, s: State, c: Names, i: nat)
    requires Sound(r) && i < |s.links| && s.links[i] == Ready(c, i) && BundleRead(r, c, i).Some?
    ensures CanRun(r, s, BundlePath(i)) && Bundled(s, Run(r, s, BundlePath(i)), c, i, BundleRead(r, c, i).value)
  {
    var e := BundleRead(r, c, i).value;
    assert Alike(e, ReqSetBundle(c.appname, c.activity, i));
    BundleDelivered(r, s, c, i);
    var s1 := Apply(r, s, UpDeliver(i));
    assert Enabled(r, s1, SessionStep(i)) && Heard(r, s1.links[i]) == e;
    BundleMoved(s1, c, i, e);
    RunTwo(r, s, UpDeliver(i), SessionStep(i));
  }

  // The application has exited, and its close reaches the session.
  function ClosePath(i: nat): seq<Step> {
    [ExecStep(i), ExecStep(i)] + ([ExecStep(i), UpDeliver(i)] + [SessionStep(i)])
  }

  lemma Exits(r: Reader, s: State, c: Names, i: nat, id: int)
    requires i < |s.links| && s.links[i] == Done(c, i, id)
    ensures CanRun(r, s, [ExecStep(i), ExecStep(i)])
    ensures var l := Done(c, i, id);
            Run(r, s, [ExecStep(i), ExecStep(i)]) == s.(links := s.links[i := l.(client := l.client.(exec := Sending))])
  {
    RunTwo(r, s, ExecStep(i), ExecStep(i));
  }

  lemma Reports(r: Reader, s: State, c: Names, i: nat, id: int)
    requires i < |s.links|
    requires var l := Done(c, i, id); s.links[i] == l.(client := l.client.(exec := Sending))
    ensures CanRun(r, s, [ExecStep(i), UpDeliver(i)])
    ensures var t := Run(r, s, [ExecStep(i), UpDeliver(i)]);
            && t == s.(links := t.links) && |t.links| == |s.links| && t.links == s.links[i := t.links[i]]
            && t.links[i].session == s.links[i].session.(inbox := [NotifyClosed(i)])
            && t.links[i].client.core.pkgname == c.pkgname
  {
    SingleHead(NotifyClosed(i));
    RunTwo(r, s, ExecStep(i), UpDeliver(i));
  }

  lemma CloseHandled(r: Reader, s: State, i: nat)
    requires Sound(r) && i < |s.links| && i < |s.slots| < MAX_SLOTS
    requires s.links[i].session.looping && s.links[i].session.inbox == [NotifyClosed(i)]
    ensures CanRun(r, s, [SessionStep(i)])
    ensures var t := Run(r, s, [SessionStep(i)]);
            && t.slots == s.slots[i := s.slots[i].(status := Idle)]
            && |t.links| == |s.links| && t.links == s.links[i := t.links[i]]
            && t.grants == s.grants && t.closes == s.closes + 1
  {
    assert Nameless(NotifyClosed(i));
    assert Enabled(r, s, SessionStep(i)) && Heard(r, s.links[i]) == NotifyClosed(i);
    RunStep(r, s, SessionStep(i), []);
  }

  lemma Closing(r: Reader, s: State, c: Names, i: nat, id: int)
    requires Sound(r) && i < |s.links| && i < |s.slots| < MAX_SLOTS && s.links[i] == Done(c, i, id)
    ensures CanRun(r, s, ClosePath(i))
    ensures var t := Run(r, s, ClosePath(i));
            && t.slots == s.slots[i := s.slots[i].(status := Idle)] && |t.links| == |s.links|
            && (forall j :: 0 <= j < |s.links| && j != i ==> t.links[j] == s.links[j])
            && t.grants == s.grants && t.closes == s.closes + 1
  {
    Exits(r, s, c, i, id);
    var s1 := Run(r, s, [ExecStep(i), ExecStep(i)]);
    Reports(r, s1, c, i, id);
    var s2 := Run(r, s1, [ExecStep(i), UpDeliver(i)]);
    CloseHandled(r, s2, i);
    RunJoin(r, s1, [ExecStep(i), UpDeliver(i)], [SessionStep(i)]);
    RunJoin(r, s, [ExecStep(i), ExecStep(i)], [ExecStep(i), UpDeliver(i)] + [SessionStep(i)]);
  }

  lemma {:induction false} BusyTaken(n: nat, m: nat)
    requires m <= n
    ensures Busy(FirstTaken(n, m)) == m
    decreases m
  {
    if m == 0 {
      AllIdleBusy(FirstTaken(n, 0));
    } else {
      BusyTaken(n, m - 1);
      BusyUpdate(FirstTaken(n, m - 1), m - 1, Slot(Reserved, "", ""));
      assert FirstTaken(n, m - 1)[m - 1 := Slot(Reserved, "", "")] == FirstTaken(n, m);
    }
  }
}
