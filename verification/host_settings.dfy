// The guest's host-settings agent (BnHostSettingsAgent.java): settings made while no listener is
// attached wait in a map and are handed over when one arrives.

module HostSettings {
  import opened Wrappers

  // The host's settings, which every listener writes to.
  class Host {
    var settings: map<string, string>

    constructor ()
      ensures settings == map[]
    {
      settings := map[];
    }

    method SetHostSetting(key: string, value: string)
      modifies this
      ensures settings == old(settings)[key := value]
    {
      settings := settings[key := value];
    }
  }

  datatype Call =
    | Set(key: string, value: string)
    | Add(listener: Option<int>)     // `addHostSettingsListener`, possibly with null
    | Remove(listener: Option<int>)

  datatype State = State(listener: Option<int>, pending: map<string, string>, host: map<string, string>)

  function Next(s: State, call: Call): State {
    match call
    case Set(key, value) =>
      if s.listener.Some? then s.(host := s.host[key := value]) else s.(pending := s.pending[key := value])
    case Add(listener) =>
      if listener.Some? then State(listener, map[], s.host + s.pending) else s.(listener := listener)
    case Remove(listener) =>
      if s.listener == listener then s.(listener := None) else s
  }

  class Agent {
    var listener: Option<int>
    var pending: map<string, string>
    const host: Host

    constructor (host: Host)
      ensures this.host == host && Value() == State(None, map[], host.settings)
    {
      listener, pending := None, map[];
      this.host := host;
    }

    function Value(): State
      reads this, host
    {
      State(listener, pending, host.settings)
    }

    // The keys are visited in whatever order the hash map yields them.
    method AddListener(listener: Option<int>)
      modifies this, host
      ensures Value() == Next(old(Value()), Add(listener))
    {
      this.listener := listener;
      if listener.Some? {
        var keys := pending.Keys;
        while keys != {}
          invariant keys <= pending.Keys && pending == old(pending) && this.listener == listener
          invariant host.settings == old(host.settings) + (pending - keys)
          decreases keys
        {
          ghost var any := SomeElement(keys);
          var key :| key in keys;
          host.SetHostSetting(key, pending[key]);
          keys := keys - {key};
        }
        assert pending - {} == pending;
        pending := map[];
      }
    }

    method RemoveListener(listener: Option<int>)
      modifies this
      ensures Value() == Next(old(Value()), Remove(listener))
    {
      if this.listener == listener {
        this.listener := None;
      }
    }

    method SetHostSetting(key: string, value: string)
      modifies this, host
      ensures Value() == Next(old(Value()), Set(key, value))
    {
      if listener.Some? {
        host.SetHostSetting(key, value);
      } else {
        pending := pending[key := value];
      }
    }
  }

  /* ---- Histories of calls ---- */

  function After(s: State, calls: seq<Call>): State {
    if calls == [] then s else Next(After(s, calls[..|calls| - 1]), calls[|calls| - 1])
  }

  // What would hold had every setting gone to the host at once: the last value set for each key.
  function Direct(host: map<string, string>, calls: seq<Call>): map<string, string> {
    if calls == [] then host
    else
      var before := Direct(host, calls[..|calls| - 1]);
      match calls[|calls| - 1]
      case Set(key, value) => before[key := value]
      case _ => before
  }

  // The host's settings overlaid with the waiting ones are always those of direct writes, and
  // nothing waits while a listener is attached; so with a listener the host itself is up to date.
  lemma {:induction false} BufferAgreesWithDirectWrites(host: map<string, string>, calls: seq<Call>)
    ensures var s := After(State(None, map[], host), calls);
            && s.host + s.pending == Direct(host, calls)
            && (s.listener.Some? ==> s.pending == map[] && s.host == Direct(host, calls))
  {
    if calls != [] {
      var before := calls[..|calls| - 1];
      BufferAgreesWithDirectWrites(host, before);
      var s := After(State(None, map[], host), before);
      match calls[|calls| - 1] {
        case Set(key, value) =>
          assert s.listener == None ==> s.host + s.pending[key := value] == (s.host + s.pending)[key := value];
          assert s.listener.Some? ==> s.host[key := value] + s.pending == (s.host + s.pending)[key := value];
        case Add(listener) => assert (s.host + s.pending) + map[] == s.host + s.pending;
        case Remove(_) =>
      }
    }
  }

  // Listeners may come and go in any way in between: only the settings matter for the outcome.
  lemma OutcomeIgnoresListeners(host: map<string, string>, a: seq<Call>, b: seq<Call>, listener: int)
    requires Direct(host, a) == Direct(host, b)
    ensures After(State(None, map[], host), a + [Add(Some(listener))]).host
         == After(State(None, map[], host), b + [Add(Some(listener))]).host
  {
    forall calls | calls == a || calls == b
      ensures After(State(None, map[], host), calls + [Add(Some(listener))]).host == Direct(host, calls)
    {
      var more := calls + [Add(Some(listener))];
      assert more[..|more| - 1] == calls;
      BufferAgreesWithDirectWrites(host, calls);
    }
  }

  /* ---- Who is attached, and what waits ---- */

  // Call `k` attached listener `id`, and no later call attached another, or none, or removed this one.
  ghost predicate AttachedSince(calls: seq<Call>, k: nat, id: int) {
    && k < |calls| && calls[k] == Add(Some(id))
    && forall j :: k < j < |calls| ==> !calls[j].Add? && calls[j] != Remove(Some(id))
  }

  ghost predicate Attached(calls: seq<Call>, id: int) { exists k :: AttachedSince(calls, k, id) }

  lemma AttachedStays(calls: seq<Call>, id: int)
    requires calls != [] && calls[|calls| - 1] != Add(Some(id))
    ensures Attached(calls, id) <==>
              Attached(calls[..|calls| - 1], id) && !calls[|calls| - 1].Add? && calls[|calls| - 1] != Remove(Some(id))
  {
    var before := calls[..|calls| - 1];
    forall k: nat | AttachedSince(calls, k, id) ensures AttachedSince(before, k, id) {
    }
    forall k: nat | AttachedSince(before, k, id) && !calls[|calls| - 1].Add? && calls[|calls| - 1] != Remove(Some(id))
      ensures AttachedSince(calls, k, id)
    {
      forall j | k < j < |calls| ensures !calls[j].Add? && calls[j] != Remove(Some(id)) {
        assert j < |before| ==> calls[j] == before[j];
      }
    }
  }

  // The attached listener is the one that was added last, if it was one and has not been removed since;
  // removing another changes nothing.
  lemma {:induction false} ListenerIsLastAdded(host: map<string, string>, calls: seq<Call>, id: int)
    ensures After(State(None, map[], host), calls).listener == Some(id) <==> Attached(calls, id)
  {
    if calls != [] {
      var last := calls[|calls| - 1];
      ListenerIsLastAdded(host, calls[..|calls| - 1], id);
      if last == Add(Some(id)) {
        assert AttachedSince(calls, |calls| - 1, id);
      } else {
        AttachedStays(calls, id);
      }
    }
  }

  // Nobody is attached after call `j` and any later one.
  ghost predicate Detached(calls: seq<Call>, j: nat) {
    j <= |calls| && forall m, id :: j <= m <= |calls| ==> !Attached(calls[..m], id)
  }

  // As long as nobody is attached the host's settings stay as they are, and what is set is added to what
  // waits, later settings over earlier ones.
  lemma {:induction false} NothingPassesUnheard(host: map<string, string>, calls: seq<Call>, j: nat)
    requires Detached(calls, j)
    ensures var was, now := After(State(None, map[], host), calls[..j]), After(State(None, map[], host), calls);
            now.host == was.host && now.pending == Direct(was.pending, calls[j..])
    decreases |calls|
  {
    assert calls[..|calls|] == calls;
    if j < |calls| {
      var before := calls[..|calls| - 1];
      forall m, id | j <= m <= |before| ensures !Attached(before[..m], id) {
        assert before[..m] == calls[..m];
      }
      NothingPassesUnheard(host, before, j);
      assert before[..j] == calls[..j];
      assert calls[j..][..|calls[j..]| - 1] == before[j..];
      NobodyListens(host, before);
      NobodyListens(host, calls);
    }
  }

  lemma NobodyListens(host: map<string, string>, calls: seq<Call>)
    requires forall id :: !Attached(calls, id)
    ensures After(State(None, map[], host), calls).listener == None
  {
    var s := After(State(None, map[], host), calls);
    if s.listener.Some? {
      ListenerIsLastAdded(host, calls, s.listener.value);
    }
  }
}
