// The invariant holds in every reachable state.

module ProtocolSafety {
  import opened Wrappers
  import opened Events
  import opened Slots
  import opened LGLauncher
  import opened Protocol
  import opened ProtocolInvariant

  /* ---- What a move does to the table ---- */

  // Only connection `i` changes; the table keeps its size.
  predicate OthersSame(s: State, s': State, i: nat) {
    && i < |s.links| == |s'.links| && |s'.slots| == |s.slots| && |s'.owner| == |s.owner|
    && -1 <= s'.links[i].session.slotId < |s'.owner|
    && (forall j :: 0 <= j < |s.links| && j != i ==> s'.links[j] == s.links[j])
  }

  predicate SameTable(s: State, s': State) {
    s'.slots == s.slots && s'.owner == s.owner && s'.grants == s.grants && s'.closes == s.closes && s'.fault == s.fault
  }

  // The connection stands as before towards its slot.
  predicate SameHolding(l: Link, l': Link) {
    && l'.granted == l.granted && l'.client.mode == l.client.mode && Outstanding(l') == Outstanding(l)
    && (Outstanding(l) ==>
          && (l'.handled < 3 <==> l.handled < 3)
          && l'.client.core.appname == l.client.core.appname && l'.client.core.pkgname == l.client.core.pkgname
          && l'.client.core.activity == l.client.core.activity)
  }

  predicate Quiet(s: State, s': State, i: nat) {
    OthersSame(s, s', i) && SameTable(s, s') && SameHolding(s.links[i], s'.links[i])
  }

  // An idle slot is reserved for the connection.
  predicate Grants(s: State, s': State, i: nat, g: nat) {
    && OthersSame(s, s', i) && g < |s.slots| == |s.owner| && s.slots[g].status == Idle
    && s'.slots == s.slots[g := s.slots[g].(status := Reserved)] && s'.owner == s.owner[g := Some(i)]
    && s'.grants == s.grants + 1 && s'.closes == s.closes && s'.fault == s.fault
    && !Outstanding(s.links[i]) && s'.links[i].granted == Some(g) && s'.links[i].handled < 3
    && s'.links[i].client.mode == Launch
  }

  // The bundle is written where its number says, which is outside the table or any slot of it.
  predicate Fills(s: State, s': State, i: nat, e: Event) {
    && OthersSame(s, s', i) && e.ReqSetBundle?
    && s'.slots == (if 0 <= e.id < |s.slots| then s.slots[e.id := Slot(Used, e.appname, e.activity)] else s.slots)
    && s'.owner == s.owner && s'.grants == s.grants && s'.closes == s.closes && s'.fault == (s.fault || e.id < 0)
    && Outstanding(s.links[i]) && s.links[i].handled == 2
    && s'.links[i].granted == s.links[i].granted && s'.links[i].handled == 3
    && s'.links[i].client == s.links[i].client
  }

  // The slot of the connection becomes idle.
  predicate Closes(s: State, s': State, i: nat, g: nat) {
    && OthersSame(s, s', i) && g < |s.slots| == |s.owner| && s.owner[g] == Some(i)
    && s'.slots == s.slots[g := s.slots[g].(status := Idle)] && s'.owner == s.owner[g := None]
    && s'.grants == s.grants && s'.closes == s.closes + 1 && s'.fault == s.fault
    && Outstanding(s.links[i]) && s.links[i].handled == 3 && s.links[i].granted == Some(g)
    && s'.links[i].granted == Some(g) && s'.links[i].handled == 4
  }

  // What a session's move can be.
  predicate SessionShape(s: State, s': State, i: nat, e: Event) {
    && OthersSame(s, s', i)
    && var l, l' := s.links[i], s'.links[i];
       || (Quiet(s, s', i) && !e.ReqSetBundle? && !e.NotifyClosed?)
       || (e.ReqGetIdle? && l.handled == 1 && l'.granted.Some? && Grants(s, s', i, l'.granted.value))
       || Fills(s, s', i, e)
       || (l.granted.Some? && e == NotifyClosed(l.granted.value) && Closes(s, s', i, l.granted.value))
  }

  /* ---- Each kind of move keeps the table in order ---- */

  lemma QuietMove(s: State, s': State, i: nat)
    requires TableInv(s) && Quiet(s, s', i)
    ensures TableInv(s')
  {
    forall g | 0 <= g < |s'.slots| ensures SlotInv(s', g) {
      assert SlotInv(s, g);
    }
    forall j | 0 <= j < |s'.links| ensures OwnsGrant(s', j) {
      assert OwnsGrant(s, j);
    }
  }

  lemma GrantingMove(s: State, s': State, i: nat, g: nat)
    requires TableInv(s) && Grants(s, s', i, g)
    ensures TableInv(s')
  {
    assert SlotInv(s, g);
    forall h | 0 <= h < |s'.slots| ensures SlotInv(s', h) {
      assert SlotInv(s, h);
    }
    forall j | 0 <= j < |s'.links| ensures OwnsGrant(s', j) {
      assert OwnsGrant(s, j);
    }
  }

  lemma FillingMove(s: State, s': State, i: nat, e: Event)
    requires TableInv(s) && Fills(s, s', i, e)
    ensures TableInv(s')
  {
    forall h | 0 <= h < |s'.slots| ensures SlotInv(s', h) {
      assert SlotInv(s, h);
    }
    forall j | 0 <= j < |s'.links| ensures OwnsGrant(s', j) {
      assert OwnsGrant(s, j);
    }
  }

  lemma ClosingMove(s: State, s': State, i: nat, g: nat)
    requires TableInv(s) && Closes(s, s', i, g)
    ensures TableInv(s')
  {
    forall h | 0 <= h < |s'.slots| ensures SlotInv(s', h) {
      assert SlotInv(s, h);
    }
    forall j | 0 <= j < |s'.links| ensures OwnsGrant(s', j) {
      assert OwnsGrant(s, j);
    }
  }

  lemma ShapeKeepsTable(s: State, s': State, i: nat, e: Event)
    requires TableInv(s) && SessionShape(s, s', i, e)
    ensures TableInv(s')
  {
    if Quiet(s, s', i) {
      QuietMove(s, s', i);
    } else if e.ReqGetIdle? {
      GrantingMove(s, s', i, s'.links[i].granted.value);
    } else if e.ReqSetBundle? {
      FillingMove(s, s', i, e);
    } else {
      ClosingMove(s, s', i, s.links[i].granted.value);
    }
  }

  /* ---- What each answer of a session is ---- */

  // Session `i` takes the head of its queue as `e`.
  ghost predicate Moves(s: State, i: nat, e: Event) {
    Inv(s) && i < |s.links| && Takes(s.links[i], e)
  }

  /* On the table, ... */

  predicate AtTable(s: State, i: nat) {
    i < |s.links| && s.links[i].session.inbox != [] && |s.owner| == |s.slots| && OwnsGrant(s, i)
  }

  lemma SlotIdInTable(s: State, i: nat, e: Event)
    requires AtTable(s, i)
    ensures OthersSame(s, SessionMove(s, i, e), i)
  {
  }

  lemma AskingIsQuiet(s: State, i: nat, e: Event)
    requires AtTable(s, i) && (e.ReqCheck? || e.ReqCloseByName? || e.ReqCloseLastOpened?)
    requires !Outstanding(s.links[i]) && s.links[i].handled < 3
    ensures Quiet(s, SessionMove(s, i, e), i)
  {
    SlotIdInTable(s, i, e);
    var o := Answer(s.links[i], s.slots, e);
    assert o.slots == s.slots && Grant(o.replies) == None;
  }

  lemma RequestGrants(s: State, i: nat, e: Event)
    requires AtTable(s, i) && e.ReqGetIdle? && s.links[i].granted == None && s.links[i].handled == 1
    requires s.links[i].client.mode == Launch
    ensures var s' := SessionMove(s, i, e);
            match s'.links[i].granted
            case Some(g) => Grants(s, s', i, g)
            case None => Quiet(s, s', i)
  {
    SlotIdInTable(s, i, e);
    var g := First(s.slots, AnyIdle);
  }

  lemma BundleFills(s: State, i: nat, e: Event)
    requires AtTable(s, i) && e.ReqSetBundle? && Outstanding(s.links[i]) && s.links[i].handled == 2
    ensures Fills(s, SessionMove(s, i, e), i, e)
  {
    SlotIdInTable(s, i, e);
  }

  lemma CloseCloses(s: State, i: nat, e: Event)
    requires AtTable(s, i) && Outstanding(s.links[i]) && s.links[i].handled == 3
    requires e == NotifyClosed(s.links[i].granted.value)
    ensures Closes(s, SessionMove(s, i, e), i, s.links[i].granted.value)
  {
    SlotIdInTable(s, i, e);
  }

  /* ... and on the connection. */

  lemma CheckMove(s: State, i: nat, e: Event)
    requires Moves(s, i, e) && s.links[i].client.mode == Launch && s.links[i].handled == 0
    ensures e.ReqCheck? && LinkInv(SessionMove(s, i, e).links[i]) && Quiet(s, SessionMove(s, i, e), i)
  {
    var l := s.links[i];
    LaunchMessage(l, e);
    CheckOutcomes(l.session.running, l.session.slotId, s.slots, e);
    CheckingAnswered(l, Answer(l, s.slots, e));
    assert l.granted == None;
    AskingIsQuiet(s, i, e);
  }

  lemma CloserMove(s: State, i: nat, e: Event)
    requires Moves(s, i, e) && s.links[i].client.mode != Launch
    ensures e.ReqCloseByName? || e.ReqCloseLastOpened?
    ensures LinkInv(SessionMove(s, i, e).links[i]) && Quiet(s, SessionMove(s, i, e), i)
  {
    var l := s.links[i];
    CloserMessage(l, e);
    NextMessage(l);
    CloserOutcomes(l.session.running, l.session.slotId, s.slots, e);
    CloserAnswered(l, Answer(l, s.slots, e));
    assert l.granted == None && l.handled == 0;
    AskingIsQuiet(s, i, e);
  }

  lemma RequestMove(s: State, i: nat, e: Event)
    requires Moves(s, i, e) && s.links[i].client.mode == Launch && s.links[i].handled == 1
    ensures e.ReqGetIdle? && LinkInv(SessionMove(s, i, e).links[i])
    ensures var s' := SessionMove(s, i, e);
            match s'.links[i].granted
            case Some(g) => Grants(s, s', i, g)
            case None => Quiet(s, s', i)
  {
    var l := s.links[i];
    LaunchMessage(l, e);
    RequestOutcomes(l.session.running, l.session.slotId, s.slots, e);
    RequestingAnswered(l, Answer(l, s.slots, e));
    assert l.granted == None;
    RequestGrants(s, i, e);
  }

  lemma BundleMove(s: State, i: nat, e: Event)
    requires Moves(s, i, e) && s.links[i].client.mode == Launch && s.links[i].handled == 2
    ensures LinkInv(SessionMove(s, i, e).links[i]) && Fills(s, SessionMove(s, i, e), i, e)
  {
    var l := s.links[i];
    LaunchMessage(l, e);
    NextMessage(l);
    QuietOutcomes(l.session.running, l.session.slotId, s.slots, e);
    HoldingAnswered(l, Answer(l, s.slots, e));
    BundleFills(s, i, e);
  }

  lemma CloseMove(s: State, i: nat, e: Event)
    requires Moves(s, i, e) && s.links[i].client.mode == Launch && s.links[i].handled >= 3
    ensures s.links[i].granted.Some? && e == NotifyClosed(s.links[i].granted.value)
    ensures LinkInv(SessionMove(s, i, e).links[i]) && Closes(s, SessionMove(s, i, e), i, s.links[i].granted.value)
  {
    var l := s.links[i];
    LaunchMessage(l, e);
    NextMessage(l);
    QuietOutcomes(l.session.running, l.session.slotId, s.slots, e);
    HoldingAnswered(l, Answer(l, s.slots, e));
    CloseCloses(s, i, e);
  }

  lemma SessionMoveShape(s: State, i: nat, e: Event)
    requires Moves(s, i, e)
    ensures SessionShape(s, SessionMove(s, i, e), i, e) && LinkInv(SessionMove(s, i, e).links[i])
  {
    var l := s.links[i];
    NextMessage(l);
    if l.client.mode != Launch {
      CloserMove(s, i, e);
    } else if l.handled == 0 {
      CheckMove(s, i, e);
    } else if l.handled == 1 {
      RequestMove(s, i, e);
    } else if l.handled == 2 {
      BundleMove(s, i, e);
    } else {
      CloseMove(s, i, e);
    }
  }

  /* ---- What a step makes of one connection ---- */

  predicate IsLocal(step: Step) { !step.Connect? && !step.SessionStep? && !step.GlobalStep? }

  function NewLink(r: Reader, s: State, step: Step, i: nat): Link
    requires Enabled(r, s, step) && i < |s.links|
  {
    var l := s.links[i];
    if IsLocal(step) && step.i == i then LocalMove(r, l, step)
    else if step == SessionStep(i) then Answered(l, Answer(l, s.slots, Heard(r, l)))
    else if step == GlobalStep(Some(i)) then Tell(l)
    else l
  }

  lemma StepLink(r: Reader, s: State, step: Step, i: nat)
    requires Enabled(r, s, step) && i < |s.links|
    ensures i < |Apply(r, s, step).links| && Apply(r, s, step).links[i] == NewLink(r, s, step, i)
  {
  }

  /* ---- Runs one after the other ---- */

  predicate NoConnects(steps: seq<Step>) { forall k :: 0 <= k < |steps| ==> !steps[k].Connect? }

  lemma RunStep(r: Reader, s: State, step: Step, rest: seq<Step>)
    requires Enabled(r, s, step) && CanRun(r, Apply(r, s, step), rest)
    ensures CanRun(r, s, [step] + rest) && Run(r, s, [step] + rest) == Run(r, Apply(r, s, step), rest)
  {
    assert ([step] + rest)[1..] == rest;
  }

  lemma {:induction false} RunJoin(r: Reader, s: State, a: seq<Step>, b: seq<Step>)
    requires CanRun(r, s, a) && CanRun(r, Run(r, s, a), b)
    ensures CanRun(r, s, a + b) && Run(r, s, a + b) == Run(r, Run(r, s, a), b)
    decreases |a|
  {
    if a == [] {
      assert a + b == b;
    } else {
      assert (a + b)[1..] == a[1..] + b;
      RunJoin(r, Apply(r, s, a[0]), a[1..], b);
    }
  }

  lemma LocalOnce(r: Reader, s: State, step: Step, l: Link, l': Link)
    requires IsLocal(step) && step.i < |s.links| && s.links[step.i] == l
    requires LocalEnabled(r, l, step) && LocalMove(r, l, step) == l'
    ensures Enabled(r, s, step) && Apply(r, s, step) == s.(links := s.links[step.i := l'])
  {
  }

  /* ---- One step keeps the invariant ---- */

  lemma LinksInv(s: State, s': State, i: nat)
    requires Inv(s) && OthersSame(s, s', i) && LinkInv(s'.links[i]) && TableInv(s')
    ensures Inv(s')
  {
    forall j | 0 <= j < |s'.links| ensures LinkInv(s'.links[j]) {
      assert j != i ==> s'.links[j] == s.links[j];
    }
  }

  lemma SessionMoveInv(s: State, i: nat, e: Event)
    requires Moves(s, i, e)
    ensures Inv(SessionMove(s, i, e))
  {
    SessionMoveShape(s, i, e);
    ShapeKeepsTable(s, SessionMove(s, i, e), i, e);
    LinksInv(s, SessionMove(s, i, e), i);
  }

  // What the session of connection `i` reads, it may take.
  lemma HeardMoves(r: Reader, s: State, i: nat)
    requires Sound(r) && Inv(s) && Enabled(r, s, SessionStep(i))
    ensures Moves(s, i, Heard(r, s.links[i]))
  {
  }

  // One connection is replaced by another with the same record; the table is untouched.
  lemma ReplaceLinkInv(s: State, i: nat, l': Link, global: seq<Event>)
    requires Inv(s) && i < |s.links| && LinkInv(l') && SameRecord(s.links[i], l')
    ensures Inv(s.(links := s.links[i := l'], global := global))
  {
    var s' := s.(links := s.links[i := l'], global := global);
    assert OwnsGrant(s, i);
    QuietMove(s, s', i);
    LinksInv(s, s', i);
  }

  lemma ConnectInv(s: State, mode: Mode, appname: string, pkgname: string, activity: string)
    requires Inv(s)
    ensures Inv(s.(links := s.links + [Fresh(mode, appname, pkgname, activity)]))
  {
    var l := Fresh(mode, appname, pkgname, activity);
    var s' := s.(links := s.links + [l]);
    FreshInv(mode, appname, pkgname, activity);
    forall g | 0 <= g < |s'.slots| ensures SlotInv(s', g) {
      assert SlotInv(s, g);
    }
    forall j | 0 <= j < |s'.links| ensures OwnsGrant(s', j) {
      assert j < |s.links| ==> OwnsGrant(s, j);
    }
  }

  lemma DropGlobalInv(s: State)
    requires Inv(s) && s.global != []
    ensures Inv(s.(global := s.global[1..]))
  {
    var s' := s.(global := s.global[1..]);
    forall g | 0 <= g < |s'.slots| ensures SlotInv(s', g) {
      assert SlotInv(s, g);
    }
    forall j | 0 <= j < |s'.links| ensures OwnsGrant(s', j) {
      assert OwnsGrant(s, j);
    }
  }

  lemma GlobalMoveInv(r: Reader, s: State, told: Option<nat>)
    requires Inv(s) && GlobalEnabled(r, s, told)
    ensures Inv(GlobalMove(s, told))
  {
    match told {
      case None => DropGlobalInv(s);
      case Some(j) =>
        TellInv(s.links[j]);
        ReplaceLinkInv(s, j, Tell(s.links[j]), s.global[1..]);
    }
  }

  lemma LocalStepInv(r: Reader, s: State, step: Step, i: nat)
    requires Sound(r) && Inv(s) && i < |s.links| && LocalEnabled(r, s.links[i], step)
    ensures Inv(s.(links := s.links[i := LocalMove(r, s.links[i], step)]))
  {
    LocalMoveInv(r, s.links[i], step);
    ReplaceLinkInv(s, i, LocalMove(r, s.links[i], step), s.global);
  }

  // Whatever the names and however they are read, every step keeps the invariant.
  lemma StepInv(r: Reader, s: State, step: Step)
    requires Sound(r) && Inv(s) && Enabled(r, s, step)
    ensures Inv(Apply(r, s, step))
  {
    match step {
      case Connect(mode, appname, pkgname, activity) => ConnectInv(s, mode, appname, pkgname, activity);
      case SessionStep(i) =>
        HeardMoves(r, s, i);
        SessionMoveInv(s, i, Heard(r, s.links[i]));
      case GlobalStep(told) => GlobalMoveInv(r, s, told);
      case _ => LocalStepInv(r, s, step, step.i);
    }
  }

  lemma {:induction false} RunInv(r: Reader, s: State, steps: seq<Step>)
    requires Sound(r) && Inv(s) && CanRun(r, s, steps)
    ensures Inv(Run(r, s, steps))
    decreases |steps|
  {
    if steps != [] {
      StepInv(r, s, steps[0]);
      RunInv(r, Apply(r, s, steps[0]), steps[1..]);
    }
  }

  lemma InitInv(n: nat)
    requires n < MAX_SLOTS
    ensures Inv(Init(n))
  {
  }

  // Every state reached from a daemon with `n` idle slots, by any steps, satisfies the invariant.
  lemma ReachableInv(r: Reader, n: nat, steps: seq<Step>)
    requires Sound(r) && n < MAX_SLOTS && CanRun(r, Init(n), steps)
    ensures Inv(Run(r, Init(n), steps)) && |Run(r, Init(n), steps).slots| == n
  {
    InitInv(n);
    RunInv(r, Init(n), steps);
    TableLength(r, Init(n), steps);
  }

  lemma {:induction false} TableLength(r: Reader, s: State, steps: seq<Step>)
    requires CanRun(r, s, steps)
    ensures |Run(r, s, steps).slots| == |s.slots|
    decreases |steps|
  {
    if steps != [] {
      TableLength(r, Apply(r, s, steps[0]), steps[1..]);
    }
  }
}
