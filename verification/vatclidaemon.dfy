// The daemon around the sessions: the slot table, the fd-to-session map and the loop over
// global events (vatclidaemon.cpp, the build with several slots).

module Daemon {
  import opened Wrappers
  import opened Events
  import opened Slots
  import opened VatSession

  // The slot a global event asks to close; events that name none are ignored.
  function Target(e: Event): Option<int> {
    if e.NotifyCloseByName? && e.id > -1 then Some(e.id) else None
  }

  lemma {:induction false} LeastKey(keys: set<int>)
    requires keys != {}
    ensures exists fd :: fd in keys && forall k :: k in keys ==> fd <= k
  {
    var some := SomeElement(keys);
    var others := keys - {some};
    if others != {} {
      LeastKey(others);
      var least :| least in others && forall k :: k in others ==> least <= k;
      var fd := if least < some then least else some;
      assert forall k :: k in keys ==> k == some || k in others;
      assert fd in keys && forall k :: k in keys ==> fd <= k;
    } else {
      assert forall k :: k in keys ==> k == some || k in others;
      assert some in keys && forall k :: k in keys ==> some <= k;
    }
  }

  class VatCliDaemon {
    var clients: map<int, VatClient>
    const slots: array<Slot>
    const globalQueue: GlobalQueue

    // Sessions share the daemon's table and queue and are pairwise distinct.
    ghost predicate Valid()
      reads this, clients.Values
    {
      && (forall fd :: fd in clients ==> clients[fd].slots == slots && clients[fd].globalQueue == globalQueue)
      && (forall a, b :: a in clients && b in clients && a != b ==> clients[a] != clients[b])
    }

    constructor (n: nat)
      ensures Valid() && fresh(slots) && fresh(globalQueue)
      ensures clients == map[] && globalQueue.events == []
      ensures slots.Length == n && forall k :: 0 <= k < n ==> slots[k] == Slot(Idle, "", "")
    {
      clients := map[];
      slots := new Slot[n](_ => Slot(Idle, "", ""));
      globalQueue := new GlobalQueue();
    }

    // A connection is accepted; `emplace` keeps an entry that is already there.
    method Accept(fd: int)
      requires Valid()
      modifies this
      ensures Valid()
      ensures fd in old(clients) ==> clients == old(clients)
      ensures fd !in old(clients) ==>
                && fd in clients && clients == old(clients)[fd := clients[fd]] && fresh(clients[fd])
                && clients[fd].running && clients[fd].slotId == -1 && clients[fd].sent == []
      ensures forall f :: f in old(clients) ==> unchanged(old(clients)[f])
    {
      var session := new VatClient(slots, globalQueue);
      if fd !in clients {
        clients := clients[fd := session];
      }
    }

    // A read event on `fd`: a result that is not positive stops the session, and a session that
    // has stopped leaves the map.
    method Readable(fd: int, readCounts: int)
      requires Valid()
      modifies this, clients.Values
      ensures Valid()
      ensures fd in old(clients) && (readCounts <= 0 || !old(clients[fd].running)) ==> clients == old(clients) - {fd}
      ensures !(fd in old(clients) && (readCounts <= 0 || !old(clients[fd].running))) ==> clients == old(clients)
      ensures fd in old(clients) ==> var session := old(clients)[fd];
                && session.running == (old(session.running) && readCounts > 0)
                && session.slotId == old(session.slotId) && session.sent == old(session.sent)
      ensures forall f :: f in old(clients) && f != fd ==> unchanged(old(clients)[f])
    {
      if fd in clients {
        var session := clients[fd];
        if readCounts <= 0 {
          session.running := false;
        }
        if !session.running {
          clients := clients - {fd};
        }
      }
    }

    // A global close reaches the session with the lowest fd that carries the slot, and no other.
    method HandleGlobal(e: Event) returns (told: Option<int>)
      requires Valid()
      modifies clients.Values
      ensures Valid()
      ensures told.Some? ==>
                && told.value in clients && Target(e) == Some(old(clients[told.value].slotId))
                && clients[told.value].sent == old(clients[told.value].sent) + [NotifyAppDied(Target(e).value)]
                && clients[told.value].slotId == old(clients[told.value].slotId)
                && clients[told.value].running == old(clients[told.value].running)
                && forall fd :: fd in clients && fd < told.value ==> clients[fd].slotId != Target(e).value
      ensures told == None ==> Target(e) == None || forall fd :: fd in clients ==> clients[fd].slotId != Target(e).value
      ensures forall fd :: fd in clients && told != Some(fd) ==> unchanged(clients[fd])
      ensures forall fd :: fd in clients ==>
                clients[fd].slotId == old(clients[fd].slotId) && clients[fd].running == old(clients[fd].running)
    {
      told := None;
      if e.NotifyCloseByName? && e.id > -1 {
        var rest := clients.Keys;
        while rest != {}
          invariant rest <= clients.Keys
          invariant forall fd, k :: fd in clients && fd !in rest && k in rest ==> fd < k
          invariant forall fd :: fd in clients && fd !in rest ==> clients[fd].slotId != e.id
          invariant forall fd :: fd in clients ==> unchanged(clients[fd])
          decreases rest
        {
          LeastKey(rest);
          var fd :| fd in rest && forall k :: k in rest ==> fd <= k;
          var session := clients[fd];
          if session.slotId == e.id {
            session.sent := session.sent + [NotifyAppDied(session.slotId)];
            return Some(fd);
          }
          rest := rest - {fd};
        }
      }
    }
  }
}
