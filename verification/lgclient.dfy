// The launcher process (lgclient.cpp, the build with several slots).

module LGLauncher {
  import opened Wrappers
  import opened Events

  datatype Launcher = Launcher(appname: string, pkgname: string, activity: string, running: bool,
                               instanceId: Option<int>, result: int, threadCreated: bool)

  // `lg_instance_id` starts as the empty string, which `atoi` reads as 0.
  function InstanceNumber(instanceId: Option<int>): int {
    match instanceId
    case None => 0
    case Some(id) => id
  }

  datatype Mode = Launch | CloseByName | CloseLastOpened

  function Started(appname: string, pkgname: string, activity: string): Launcher {
    Launcher(appname, pkgname, activity, true, None, 0, false)
  }

  // The message each entry point sends before entering the main loop.
  function Opening(mode: Mode, c: Launcher): Event {
    match mode
    case Launch => ReqCheck(c.appname, c.activity)
    case CloseByName => ReqCloseByName(c.appname)
    case CloseLastOpened => ReqCloseLastOpened
  }

  // The report that the application is closed.
  function CloseReport(c: Launcher): Event { NotifyClosed(InstanceNumber(c.instanceId)) }

  datatype Reaction = Reaction(next: Launcher, sends: seq<Event>)

  // One event taken by the main loop.
  function React(c: Launcher, e: Event): Reaction {
    match e
    case ResCheck(id) =>
      if id == -1 then Reaction(c, [ReqGetIdle(c.appname, c.activity)])
      else Reaction(c.(instanceId := Some(id), running := false, result := 0), [])
    case ResNotAvailable => Reaction(c.(running := false, result := -1), [])
    case ConnectionClosed => Reaction(c.(running := false, result := -1), [])
    case ResIdleSlot(id) =>
      var c' := c.(instanceId := Some(id), threadCreated := c.threadCreated || c.running);
      Reaction(c', if id > -1 then [ReqSetBundle(c.appname, c.activity, id)] else [])
    case NotifyAppDied(_) =>
      Reaction(c.(running := false, result := 0), [CloseReport(c)])
    case NotifyCloseByNameNotified => Reaction(c.(running := false, result := 0), [])
    case ResCloseLastOpened(appname, activity) =>
      Reaction(c.(appname := appname, pkgname := appname, activity := activity, running := false, result := 0), [])
    case ResNoLastOpened => Reaction(c.(running := false, result := -1), [])
    case _ => Reaction(c, [])
  }

  // The main loop over a queue of events.
  function ReactAll(c: Launcher, inbox: seq<Event>): Reaction
    decreases |inbox|
  {
    if !c.running || inbox == [] then Reaction(c, [])
    else
      var one := React(c, inbox[0]);
      var rest := ReactAll(one.next, inbox[1..]);
      Reaction(rest.next, one.sends + rest.sends)
  }

  /* ---- What a launcher is left with, said without its handler ---- */

  // After these events a launcher does not go on ...
  predicate Final(e: Event) {
    || (e.ResCheck? && e.id != -1) || e.NotifyAppDied? || e.NotifyCloseByNameNotified? || e.ResCloseLastOpened?
    || Fails(e)
  }

  // ... and after these it has failed.
  predicate Fails(e: Event) { e.ResNotAvailable? || e.ConnectionClosed? || e.ResNoLastOpened? }

  predicate FirstFinal(q: seq<Event>, k: nat) {
    k <= |q| && (forall j :: 0 <= j < k ==> !Final(q[j])) && (k < |q| ==> Final(q[k]))
  }

  // The last slot granted before event `k`, or `before` if none was.
  ghost predicate IsLastSlot(q: seq<Event>, k: nat, before: Option<int>, slot: Option<int>)
    requires k <= |q|
  {
    || (slot == before && forall j :: 0 <= j < k ==> !q[j].ResIdleSlot?)
    || exists j :: 0 <= j < k && q[j].ResIdleSlot? && slot == Some(q[j].id)
                   && forall i :: j < i < k ==> !q[i].ResIdleSlot?
  }

  // What the main loop makes of launcher `c` with the events `q`, of which `k` is the first final one.
  ghost predicate EndsAs(c: Launcher, q: seq<Event>, k: nat, n: Launcher)
    requires k <= |q|
  {
    && n.running == (k == |q|)
    && n.result == (if k == |q| then c.result else if Fails(q[k]) then -1 else 0)
    && (if k < |q| && q[k].ResCloseLastOpened?
        then n.appname == n.pkgname == q[k].appname && n.activity == q[k].activity
        else n.appname == c.appname && n.pkgname == c.pkgname && n.activity == c.activity)
    && n.threadCreated == (c.threadCreated || exists j :: 0 <= j < k && q[j].ResIdleSlot?)
    && (if k < |q| && q[k].ResCheck? then n.instanceId == Some(q[k].id)
        else IsLastSlot(q, k, c.instanceId, n.instanceId))
  }

  lemma EndsAsTail(c: Launcher, c': Launcher, q: seq<Event>, k: nat, n: Launcher)
    requires q != [] && 1 <= k <= |q| && !Final(q[0]) && EndsAs(c', q[1..], k - 1, n)
    requires c'.result == c.result && c'.appname == c.appname && c'.pkgname == c.pkgname && c'.activity == c.activity
    requires c'.threadCreated == (c.threadCreated || q[0].ResIdleSlot?)
    requires c'.instanceId == if q[0].ResIdleSlot? then Some(q[0].id) else c.instanceId
    ensures EndsAs(c, q, k, n)
  {
    assert forall j :: 0 <= j < k - 1 ==> q[1..][j] == q[j + 1];
    if !(k < |q| && q[k].ResCheck?) {
      LastSlotTail(q, k, c.instanceId, c'.instanceId, n.instanceId);
    }
    if exists j :: 0 <= j < k - 1 && q[1..][j].ResIdleSlot? {
      var j :| 0 <= j < k - 1 && q[1..][j].ResIdleSlot?;
      assert q[j + 1].ResIdleSlot?;
    }
  }

  lemma LastSlotTail(q: seq<Event>, k: nat, before: Option<int>, before': Option<int>, slot: Option<int>)
    requires q != [] && 1 <= k <= |q| && IsLastSlot(q[1..], k - 1, before', slot)
    requires before' == if q[0].ResIdleSlot? then Some(q[0].id) else before
    ensures IsLastSlot(q, k, before, slot)
  {
    forall j | 0 <= j < k - 1 ensures q[1..][j] == q[j + 1] {
    }
    if j :| 0 <= j < k - 1 && q[1..][j].ResIdleSlot? && slot == Some(q[1..][j].id)
            && forall i :: j < i < k - 1 ==> !q[1..][i].ResIdleSlot? {
      forall i | j + 1 < i < k ensures !q[i].ResIdleSlot? {
        assert q[i] == q[1..][i - 1];
      }
      assert q[j + 1].ResIdleSlot?;
    } else {
      forall i | 0 < i < k ensures !q[i].ResIdleSlot? {
        assert q[i] == q[1..][i - 1];
      }
    }
  }

  // The loop stops at the first final event, with result -1 exactly if that is a refusal, a closed
  // connection or the answer that no application was opened, and with the names of the application
  // opened last exactly if it is told them.
  lemma {:induction false} LoopOutcome(c: Launcher, q: seq<Event>) returns (k: nat)
    requires c.running
    ensures FirstFinal(q, k) && EndsAs(c, q, k, ReactAll(c, q).next)
    decreases |q|
  {
    if q == [] || Final(q[0]) {
      k := 0;
    } else {
      var next := React(c, q[0]).next;
      var j := LoopOutcome(next, q[1..]);
      k := j + 1;
      assert forall i :: 0 <= i < |q| - 1 ==> q[1..][i] == q[i + 1];
      EndsAsTail(c, next, q, k, ReactAll(next, q[1..]).next);
    }
  }

  // A launcher answers three things only: that its application does not run yet, the grant of a slot of
  // the table, and the death of its application, with the slot it has or 0 when it has none.
  lemma AnswersExactly(c: Launcher, e: Event)
    ensures var sends := React(c, e).sends;
            && |sends| <= 1
            && (e == ResCheck(-1) <==> sends == [ReqGetIdle(c.appname, c.activity)])
            && (forall g :: e == ResIdleSlot(g) && g >= 0 <==> sends == [ReqSetBundle(c.appname, c.activity, g)])
            && (e.NotifyAppDied? <==>
                  sends == [NotifyClosed(if c.instanceId.Some? then c.instanceId.value else 0)])
            && (sends == [] <==> e != ResCheck(-1) && !e.NotifyAppDied? && !(e.ResIdleSlot? && e.id >= 0))
  {
  }

  // `killApp` tests `running` and, when it is set, sends.
  function KillAppSends(c: Launcher): seq<Event> {
    if c.running then [CloseReport(c)] else []
  }

  class LGClient {
    var appname: string
    var pkgname: string
    var activity: string
    var running: bool
    var instanceId: Option<int>
    var result: int
    var threadCreated: bool
    var sent: seq<Event>

    constructor (appname: string, pkgname: string, activity: string)
      ensures Value() == Started(appname, pkgname, activity).(running := false) && sent == []
    {
      this.appname, this.pkgname, this.activity := appname, pkgname, activity;
      running, instanceId, result, threadCreated, sent := false, None, 0, false, [];
    }

    function Value(): Launcher
      reads this
    {
      Launcher(appname, pkgname, activity, running, instanceId, result, threadCreated)
    }

    method Open(mode: Mode)
      modifies this
      ensures Value() == old(Value()).(running := true)
      ensures sent == old(sent) + [Opening(mode, old(Value()))]
    {
      running := true;
      match mode {
        case Launch => sent := sent + [ReqCheck(appname, activity)];
        case CloseByName => sent := sent + [ReqCloseByName(appname)];
        case CloseLastOpened => sent := sent + [ReqCloseLastOpened];
      }
    }

    method HandleEvent(e: Event)
      modifies this
      ensures Value() == React(old(Value()), e).next
      ensures sent == old(sent) + React(old(Value()), e).sends
    {
      var needExecLG := false;
      match e {
        case ResCheck(id) =>
          if id == -1 {
            sent := sent + [ReqGetIdle(appname, activity)];
          } else {
            instanceId := Some(id);
            running := false;
            result := 0;
          }
        case ResNotAvailable =>
          running := false;
          result := -1;
        case ConnectionClosed =>
          running := false;
          result := -1;
        case ResIdleSlot(id) =>
          instanceId := Some(id);
          if id > -1 {
            sent := sent + [ReqSetBundle(appname, activity, id)];
          }
          needExecLG := true;
        case NotifyAppDied(_) =>
          sent := sent + [NotifyClosed(InstanceNumber(instanceId))];
          running := false;
          result := 0;
        case NotifyCloseByNameNotified =>
          running := false;
          result := 0;
        case ResCloseLastOpened(name, act) =>
          appname := name;
          pkgname := name;
          activity := act;
          running := false;
          result := 0;
        case ResNoLastOpened =>
          running := false;
          result := -1;
        case _ =>
      }
      if needExecLG && running {
        threadCreated := true;
      }
    }

    method MainLoop(inbox: seq<Event>)
      modifies this
      ensures Value() == ReactAll(old(Value()), inbox).next
      ensures sent == old(sent) + ReactAll(old(Value()), inbox).sends
    {
      var queue := inbox;
      ghost var goal := ReactAll(Value(), inbox);
      ghost var rest := goal;
      while running && queue != []
        invariant rest == ReactAll(Value(), queue)
        invariant goal.next == rest.next
        invariant old(sent) + goal.sends == sent + rest.sends
        decreases |queue|
      {
        ghost var one := React(Value(), queue[0]);
        ghost var tail := ReactAll(one.next, queue[1..]);
        assert sent + rest.sends == (sent + one.sends) + tail.sends;
        HandleEvent(queue[0]);
        queue := queue[1..];
        rest := tail;
      }
      assert rest.sends == [];
    }

    method KillApp()
      modifies this
      ensures Value() == old(Value())
      ensures sent == old(sent) + KillAppSends(old(Value()))
    {
      if running {
        sent := sent + [NotifyClosed(InstanceNumber(instanceId))];
      }
    }

    // The viewer thread once the application has exited.
    method ExecLG()
      modifies this
      ensures Value() == old(Value()).(running := false)
      ensures sent == old(sent) + KillAppSends(old(Value()))
    {
      KillApp();
      if running {
        running := false;
      }
    }
  }
}
