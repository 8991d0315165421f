// Event queues with recycled event objects (eventqueue.cpp), and who holds which object when
// several sessions and the daemon's global loop pass them around.

module EventQueues {
  import opened Wrappers
  import E = Events

  class Event {
    var data: E.Event

    constructor (data: E.Event)
      ensures this.data == data
    {
      this.data := data;
    }
  }

  class EventQueue {
    var queue: seq<Event>
    var pool: seq<Event>

    constructor ()
      ensures queue == [] && pool == []
    {
      queue, pool := [], [];
    }

    // The front of the pool, or a new object when the pool is empty.
    method GetEmptyEventObj() returns (obj: Event)
      modifies this`pool
      ensures old(pool) != [] ==> obj == old(pool)[0] && pool == old(pool)[1..]
      ensures old(pool) == [] ==> fresh(obj) && obj.data == E.ConnectionClosed && pool == []
    {
      if pool != [] {
        obj := pool[0];
        pool := pool[1..];
      } else {
        obj := new Event(E.ConnectionClosed);
      }
    }

    method FreeEventObj(obj: Event)
      modifies this`pool
      ensures pool == old(pool) + [obj]
    {
      pool := pool + [obj];
    }

    method EnQueue(obj: Event)
      modifies this`queue
      ensures queue == old(queue) + [obj]
    {
      queue := queue + [obj];
    }

    // `arrived` are the objects put in the queue while the caller waits on the condition; a wake-up
    // without any gives the caller nothing.
    method DeQueue(arrived: seq<Event>) returns (obj: Event?)
      modifies this`queue
      ensures var now := if old(queue) == [] then arrived else old(queue);
              if now == [] then obj == null && queue == []
              else obj == now[0] && queue == now[1..]
    {
      obj := null;
      if queue == [] {
        queue := arrived;
      }
      if queue != [] {
        obj := queue[0];
        queue := queue[1..];
      }
    }
  }

  /* ---- All queues of the daemon ---- */

  // Objects are numbered in the order of their creation. Queue 0 is the daemon's global one.
  datatype Queue = Queue(queue: seq<nat>, pool: seq<nat>, put: seq<E.Event>, got: seq<E.Event>)

  // `hands`: what each thread holds; `data`: what each object contains; `put` and `got` record the
  // events that entered and left a queue.
  datatype World = World(queues: seq<Queue>, hands: seq<seq<nat>>, data: seq<E.Event>)

  datatype Move =
    | Get(thread: nat, q: nat)                  // getEmptyEventObj
    | Fill(thread: nat, k: nat, event: E.Event) // write into a held object
    | Put(thread: nat, k: nat, q: nat)          // EnQueue a held object
    | Take(thread: nat, q: nat)                 // DeQueue
    | Wake(thread: nat, q: nat)                 // awaken, or a spurious wake-up: nothing to take
    | Free(thread: nat, k: nat, q: nat)         // freeEventObj
    | NewQueue
    | NewThread

  function Empty(): World { World([], [], []) }

  predicate Possible(w: World, m: Move) {
    match m
    case Get(t, q) => t < |w.hands| && q < |w.queues|
    case Fill(t, k, _) => t < |w.hands| && k < |w.hands[t]| && w.hands[t][k] < |w.data|
    case Put(t, k, q) => t < |w.hands| && k < |w.hands[t]| && w.hands[t][k] < |w.data| && q < |w.queues|
    case Take(t, q) => t < |w.hands| && q < |w.queues| && w.queues[q].queue != [] && w.queues[q].queue[0] < |w.data|
    case Wake(t, q) => t < |w.hands| && q < |w.queues| && w.queues[q].queue == []
    case Free(t, k, q) => t < |w.hands| && k < |w.hands[t]| && q < |w.queues|
    case NewQueue => true
    case NewThread => true
  }

  function Without<T>(s: seq<T>, k: nat): seq<T>
    requires k < |s|
  {
    s[..k] + s[k + 1..]
  }

  function Moved(w: World, m: Move): World
    requires Possible(w, m)
  {
    match m
    case Get(t, q) =>
      var queue := w.queues[q];
      if queue.pool != [] then
        w.(queues := w.queues[q := queue.(pool := queue.pool[1..])],
           hands := w.hands[t := w.hands[t] + [queue.pool[0]]])
      else
        w.(hands := w.hands[t := w.hands[t] + [|w.data|]], data := w.data + [E.ConnectionClosed])
    case Fill(t, k, event) => w.(data := w.data[w.hands[t][k] := event])
    case Put(t, k, q) =>
      var queue, obj := w.queues[q], w.hands[t][k];
      w.(queues := w.queues[q := queue.(queue := queue.queue + [obj], put := queue.put + [w.data[obj]])],
         hands := w.hands[t := Without(w.hands[t], k)])
    case Take(t, q) =>
      var queue := w.queues[q];
      var obj := queue.queue[0];
      w.(queues := w.queues[q := queue.(queue := queue.queue[1..], got := queue.got + [w.data[obj]])],
         hands := w.hands[t := w.hands[t] + [obj]])
    case Wake(_, _) => w
    case Free(t, k, q) =>
      var queue := w.queues[q];
      w.(queues := w.queues[q := queue.(pool := queue.pool + [w.hands[t][k]])],
         hands := w.hands[t := Without(w.hands[t], k)])
    case NewQueue => w.(queues := w.queues + [Queue([], [], [], [])])
    case NewThread => w.(hands := w.hands + [[]])
  }

  predicate CanDo(w: World, moves: seq<Move>)
    decreases |moves|
  {
    moves == [] || (Possible(w, moves[0]) && CanDo(Moved(w, moves[0]), moves[1..]))
  }

  function Do(w: World, moves: seq<Move>): World
    requires CanDo(w, moves)
    decreases |moves|
  {
    if moves == [] then w else Do(Moved(w, moves[0]), moves[1..])
  }

  /* ---- Where an object is ---- */

  function Count(s: seq<nat>, o: nat): nat {
    if s == [] then 0 else (if s[0] == o then 1 else 0) + Count(s[1..], o)
  }

  function InHands(hands: seq<seq<nat>>, o: nat): nat {
    if hands == [] then 0 else Count(hands[0], o) + InHands(hands[1..], o)
  }

  function InQueues(queues: seq<Queue>, o: nat): nat {
    if queues == [] then 0 else Count(queues[0].queue, o) + Count(queues[0].pool, o) + InQueues(queues[1..], o)
  }

  // In how many places object `o` is: queues, pools and hands together.
  function Places(w: World, o: nat): nat {
    InQueues(w.queues, o) + InHands(w.hands, o)
  }

  lemma {:induction false} CountAppend(a: seq<nat>, b: seq<nat>, o: nat)
    ensures Count(a + b, o) == Count(a, o) + Count(b, o)
  {
    if a == [] {
      assert a + b == b;
    } else {
      assert (a + b)[1..] == a[1..] + b;
      CountAppend(a[1..], b, o);
    }
  }

  lemma CountOne(x: nat, o: nat)
    ensures Count([x], o) == if x == o then 1 else 0
  {
    assert [x][1..] == [];
  }

  lemma CountWithout(s: seq<nat>, k: nat, o: nat)
    requires k < |s|
    ensures Count(s, o) == Count(Without(s, k), o) + Count([s[k]], o)
  {
    assert s == s[..k] + ([s[k]] + s[k + 1..]);
    CountAppend(s[..k], [s[k]] + s[k + 1..], o);
    CountAppend([s[k]], s[k + 1..], o);
    CountAppend(s[..k], s[k + 1..], o);
  }

  lemma {:induction false} CountAt(s: seq<nat>, o: nat)
    ensures Count(s, o) == 0 <==> o !in s
  {
    if s != [] {
      CountAt(s[1..], o);
      assert s == [s[0]] + s[1..];
    }
  }

  lemma TwiceCounts(s: seq<nat>, j: nat, k: nat)
    requires j < |s| && k < |s| && j != k && s[j] == s[k]
    ensures Count(s, s[k]) >= 2
  {
    CountWithout(s, k, s[k]);
    CountOne(s[k], s[k]);
    CountAt(Without(s, k), s[k]);
    assert Without(s, k)[if j < k then j else j - 1] == s[j];
  }

  lemma {:induction false} HandsUpdate(hands: seq<seq<nat>>, t: nat, h: seq<nat>, o: nat)
    requires t < |hands|
    ensures InHands(hands[t := h], o) == InHands(hands, o) - Count(hands[t], o) + Count(h, o)
    ensures Count(hands[t], o) <= InHands(hands, o)
  {
    if t > 0 {
      assert hands[t := h][1..] == hands[1..][t - 1 := h];
      HandsUpdate(hands[1..], t - 1, h, o);
    } else {
      assert hands[t := h][1..] == hands[1..];
    }
  }

  function Within(queue: Queue, o: nat): nat { Count(queue.queue, o) + Count(queue.pool, o) }

  lemma {:induction false} QueuesUpdate(queues: seq<Queue>, q: nat, queue: Queue, o: nat)
    requires q < |queues|
    ensures InQueues(queues[q := queue], o) == InQueues(queues, o) - Within(queues[q], o) + Within(queue, o)
    ensures Within(queues[q], o) <= InQueues(queues, o)
  {
    if q > 0 {
      assert queues[q := queue][1..] == queues[1..][q - 1 := queue];
      QueuesUpdate(queues[1..], q - 1, queue, o);
    } else {
      assert queues[q := queue][1..] == queues[1..];
    }
  }

  lemma {:induction false} NewQueuePlaces(queues: seq<Queue>, o: nat)
    ensures InQueues(queues + [Queue([], [], [], [])], o) == InQueues(queues, o)
  {
    var more := queues + [Queue([], [], [], [])];
    if queues == [] {
      assert more[1..] == [];
    } else {
      assert more[1..] == queues[1..] + [Queue([], [], [], [])];
      NewQueuePlaces(queues[1..], o);
    }
  }

  lemma {:induction false} NewThreadPlaces(hands: seq<seq<nat>>, o: nat)
    ensures InHands(hands + [[]], o) == InHands(hands, o)
  {
    if hands == [] {
      assert (hands + [[]])[1..] == [];
    } else {
      assert (hands + [[]])[1..] == hands[1..] + [[]];
      NewThreadPlaces(hands[1..], o);
    }
  }

  // A move takes an object from one place to one other; only `Get` on an empty pool adds one.
  lemma MoveKeepsPlaces(w: World, m: Move, o: nat)
    requires Possible(w, m)
    ensures Places(Moved(w, m), o) == Places(w, o) + (if |Moved(w, m).data| > |w.data| && o == |w.data| then 1 else 0)
  {
    match m {
      case Get(t, q) =>
        var queue := w.queues[q];
        var obj := if queue.pool != [] then queue.pool[0] else |w.data|;
        HandsUpdate(w.hands, t, w.hands[t] + [obj], o);
        CountAppend(w.hands[t], [obj], o);
        CountOne(obj, o);
        if queue.pool != [] {
          QueuesUpdate(w.queues, q, queue.(pool := queue.pool[1..]), o);
        }
      case Put(t, k, q) =>
        var queue, obj := w.queues[q], w.hands[t][k];
        HandsUpdate(w.hands, t, Without(w.hands[t], k), o);
        CountWithout(w.hands[t], k, o);
        QueuesUpdate(w.queues, q, Moved(w, m).queues[q], o);
        CountAppend(queue.queue, [obj], o);
      case Take(t, q) =>
        var obj := w.queues[q].queue[0];
        HandsUpdate(w.hands, t, w.hands[t] + [obj], o);
        CountAppend(w.hands[t], [obj], o);
        CountOne(obj, o);
        QueuesUpdate(w.queues, q, Moved(w, m).queues[q], o);
      case Free(t, k, q) =>
        var queue, obj := w.queues[q], w.hands[t][k];
        HandsUpdate(w.hands, t, Without(w.hands[t], k), o);
        CountWithout(w.hands[t], k, o);
        QueuesUpdate(w.queues, q, Moved(w, m).queues[q], o);
        CountAppend(queue.pool, [obj], o);
      case NewQueue => NewQueuePlaces(w.queues, o);
      case NewThread => NewThreadPlaces(w.hands, o);
      case _ =>
    }
  }

  /* ---- What a queue contains ---- */

  function At(data: seq<E.Event>, o: nat): E.Event {
    if o < |data| then data[o] else E.ConnectionClosed
  }

  function Contents(data: seq<E.Event>, objs: seq<nat>): seq<E.Event> {
    if objs == [] then [] else [At(data, objs[0])] + Contents(data, objs[1..])
  }

  lemma {:induction false} ContentsAppend(data: seq<E.Event>, objs: seq<nat>, o: nat)
    ensures Contents(data, objs + [o]) == Contents(data, objs) + [At(data, o)]
  {
    if objs == [] {
      assert ([] + [o])[1..] == [];
    } else {
      assert (objs + [o])[1..] == objs[1..] + [o];
      ContentsAppend(data, objs[1..], o);
    }
  }

  lemma {:induction false} ContentsDependOn(data: seq<E.Event>, data': seq<E.Event>, objs: seq<nat>)
    requires forall o :: o in objs ==> At(data, o) == At(data', o)
    ensures Contents(data, objs) == Contents(data', objs)
  {
    if objs != [] {
      ContentsDependOn(data, data', objs[1..]);
    }
  }

  // Every object created is in exactly one place.
  ghost predicate Owned(w: World) {
    forall o: nat :: Places(w, o) == if o < |w.data| then 1 else 0
  }

  // What entered a queue is what left it and what it contains now, in this order.
  predicate InOrder(w: World, q: nat)
    requires q < |w.queues|
  {
    w.queues[q].put == w.queues[q].got + Contents(w.data, w.queues[q].queue)
  }

  ghost predicate WorldInv(w: World) {
    Owned(w) && forall q: nat :: q < |w.queues| ==> InOrder(w, q)
  }

  lemma QueuedPlaces(w: World, q: nat, o: nat)
    requires q < |w.queues| && Owned(w) && o in w.queues[q].queue
    ensures o < |w.data|
  {
    assert Places(w, o) <= 1;
    QueuesUpdate(w.queues, q, w.queues[q], o);
    CountAt(w.queues[q].queue, o);
    assert Places(w, o) >= 1;
  }

  // A held object is in no queue.
  lemma HeldNotQueued(w: World, t: nat, k: nat, q: nat)
    requires Owned(w) && t < |w.hands| && k < |w.hands[t]| && q < |w.queues|
    ensures w.hands[t][k] !in w.queues[q].queue && w.hands[t][k] !in w.queues[q].pool
  {
    var o := w.hands[t][k];
    assert Places(w, o) <= 1;
    HandsUpdate(w.hands, t, w.hands[t], o);
    CountAt(w.hands[t], o);
    QueuesUpdate(w.queues, q, w.queues[q], o);
    CountAt(w.queues[q].queue, o);
    CountAt(w.queues[q].pool, o);
  }

  lemma MoveKeepsOwned(w: World, m: Move)
    requires Owned(w) && Possible(w, m)
    ensures Owned(Moved(w, m))
  {
    forall o: nat ensures Places(Moved(w, m), o) == if o < |Moved(w, m).data| then 1 else 0 {
      MoveKeepsPlaces(w, m, o);
    }
  }

  lemma MoveKeepsOrder(w: World, m: Move, q: nat)
    requires WorldInv(w) && Possible(w, m) && q < |Moved(w, m).queues|
    ensures InOrder(Moved(w, m), q)
  {
    var w' := Moved(w, m);
    if q < |w.queues| {
      assert InOrder(w, q);
      match m {
        case Get(t, _) =>
          forall o | o in w.queues[q].queue ensures At(w.data, o) == At(w'.data, o) {
            QueuedPlaces(w, q, o);
          }
          ContentsDependOn(w.data, w'.data, w.queues[q].queue);
        case Fill(t, k, event) =>
          HeldNotQueued(w, t, k, q);
          ContentsDependOn(w.data, w'.data, w.queues[q].queue);
        case Put(t, k, p) =>
          ContentsAppend(w.data, w.queues[q].queue, w.hands[t][k]);
        case _ =>
      }
    }
  }

  lemma {:induction false} DoKeepsInv(w: World, moves: seq<Move>)
    requires WorldInv(w) && CanDo(w, moves)
    ensures WorldInv(Do(w, moves))
    decreases |moves|
  {
    if moves != [] {
      MoveKeepsOwned(w, moves[0]);
      forall q: nat | q < |Moved(w, moves[0]).queues| ensures InOrder(Moved(w, moves[0]), q) {
        MoveKeepsOrder(w, moves[0], q);
      }
      DoKeepsInv(Moved(w, moves[0]), moves[1..]);
    }
  }

  // However many sessions pass event objects around, and although a global event's object is taken
  // from a session's pool and returned to the global one, every object is in one place only: an
  // object that a thread is about to fill is in no queue, no pool and no other hand.
  lemma HeldObjectsAreNotShared(moves: seq<Move>, t: nat, k: nat, u: nat, j: nat, q: nat)
    requires CanDo(Empty(), moves)
    requires var w := Do(Empty(), moves); t < |w.hands| && k < |w.hands[t]|
    ensures var w := Do(Empty(), moves);
            var o := w.hands[t][k];
            && Places(w, o) == 1 && o < |w.data|
            && (q < |w.queues| ==> o !in w.queues[q].queue && o !in w.queues[q].pool)
            && (u < |w.hands| && j < |w.hands[u]| && w.hands[u][j] == o ==> u == t && j == k)
  {
    DoKeepsInv(Empty(), moves);
    var w := Do(Empty(), moves);
    var o := w.hands[t][k];
    HandsUpdate(w.hands, t, w.hands[t], o);
    CountAt(w.hands[t], o);
    if q < |w.queues| {
      HeldNotQueued(w, t, k, q);
    }
    if u < |w.hands| && j < |w.hands[u]| && w.hands[u][j] == o {
      if u == t {
        if j != k {
          TwiceCounts(w.hands[t], j, k);
        }
      } else {
        HandsUpdate(w.hands, t, [], o);
        HandsUpdate(w.hands[t := []], u, w.hands[u], o);
        CountAt(w.hands[u], o);
      }
    }
  }

  // Each queue hands out events in the order in which they were put in, none twice, none changed.
  lemma QueuesAreFifo(moves: seq<Move>, q: nat)
    requires CanDo(Empty(), moves) && q < |Do(Empty(), moves).queues|
    ensures var queue := Do(Empty(), moves).queues[q];
            && queue.got <= queue.put
            && queue.put[|queue.got|..] == Contents(Do(Empty(), moves).data, queue.queue)
  {
    DoKeepsInv(Empty(), moves);
    assert InOrder(Do(Empty(), moves), q);
  }

  /* ---- The queues and hands as they are in memory ---- */

  // All queues of the daemon and what its threads hold; `objects` lists the event objects in the
  // order of their creation and so gives them their numbers.
  class Pools {
    var queues: seq<EventQueue>
    var hands: seq<seq<Event>>
    ghost var objects: seq<Event>

    constructor ()
      ensures Shows(Empty())
    {
      queues, hands, objects := [], [], [];
    }

    ghost predicate Numbered(objs: seq<Event>, ids: seq<nat>)
      reads this
    {
      |objs| == |ids| && forall k :: 0 <= k < |ids| ==> ids[k] < |objects| && objs[k] == objects[ids[k]]
    }

    // No object and no queue is there twice.
    ghost predicate Distinct()
      reads this
    {
      && (forall i, j :: 0 <= i < j < |objects| ==> objects[i] != objects[j])
      && (forall p, q :: 0 <= p < q < |queues| ==> queues[p] != queues[q])
    }

    ghost predicate ShowsQueue(q: nat, queue: Queue)
      requires q < |queues|
      reads this, queues
    {
      Numbered(queues[q].queue, queue.queue) && Numbered(queues[q].pool, queue.pool)
    }

    ghost predicate Shows(w: World)
      reads this, queues, objects
    {
      && |w.data| == |objects| && |w.queues| == |queues| && |w.hands| == |hands| && Distinct()
      && (forall i :: 0 <= i < |objects| ==> objects[i].data == w.data[i])
      && (forall q :: 0 <= q < |queues| ==> ShowsQueue(q, w.queues[q]))
      && (forall t :: 0 <= t < |hands| ==> Numbered(hands[t], w.hands[t]))
    }

    // From a pool that is not empty, ...
    method TakePooled(t: nat, q: nat, ghost w: World) returns (obj: Event)
      requires Shows(w) && Possible(w, Move.Get(t, q)) && queues[q].pool != []
      modifies this, queues[q]
      ensures Shows(Moved(w, Move.Get(t, q))) && queues == old(queues) && objects == old(objects)
      ensures hands == old(hands)[t := old(hands[t]) + [obj]] && queues[q].queue == old(queues[q].queue)
      ensures obj == old(queues[q].pool)[0] && queues[q].pool == old(queues[q].pool)[1..]
    {
      assert Numbered(queues[q].pool, w.queues[q].pool);
      obj := queues[q].GetEmptyEventObj();
      hands := hands[t := hands[t] + [obj]];
    }

    // ... and from an empty one.
    method TakeNew(t: nat, q: nat, ghost w: World) returns (obj: Event)
      requires Shows(w) && Possible(w, Move.Get(t, q)) && queues[q].pool == []
      modifies this, queues[q]
      ensures Shows(Moved(w, Move.Get(t, q))) && queues == old(queues)
      ensures hands == old(hands)[t := old(hands[t]) + [obj]] && queues[q].queue == old(queues[q].queue)
      ensures fresh(obj) && queues[q].pool == [] && objects == old(objects) + [obj]
    {
      assert Numbered(queues[q].pool, w.queues[q].pool);
      obj := queues[q].GetEmptyEventObj();
      hands := hands[t := hands[t] + [obj]];
      objects := objects + [obj];
    }

    method TakeEmpty(t: nat, q: nat, ghost w: World) returns (obj: Event)
      requires Shows(w) && Possible(w, Move.Get(t, q))
      modifies this, queues[q]
      ensures Shows(Moved(w, Move.Get(t, q))) && queues == old(queues)
      ensures old(objects) <= objects && forall i :: |old(objects)| <= i < |objects| ==> fresh(objects[i])
      ensures hands == old(hands)[t := old(hands[t]) + [obj]] && queues[q].queue == old(queues[q].queue)
      ensures Taken(obj, old(queues[q].pool), queues[q].pool) && (old(queues[q].pool) == [] ==> fresh(obj))
    {
      if queues[q].pool == [] {
        obj := TakeNew(t, q, w);
      } else {
        obj := TakePooled(t, q, w);
      }
    }

    method Write(t: nat, k: nat, event: E.Event, ghost w: World)
      requires Shows(w) && Possible(w, Move.Fill(t, k, event))
      modifies hands[t][k]
      ensures Shows(Moved(w, Move.Fill(t, k, event))) && hands[t][k].data == event
    {
      hands[t][k].data := event;
    }

    method PutIn(t: nat, k: nat, q: nat, ghost w: World)
      requires Shows(w) && Possible(w, Move.Put(t, k, q))
      modifies this, queues[q]
      ensures Shows(Moved(w, Move.Put(t, k, q))) && queues == old(queues)
      ensures queues[q].queue == old(queues[q].queue) + [old(hands[t][k])] && queues[q].pool == old(queues[q].pool)
      ensures hands == old(hands)[t := Without(old(hands[t]), k)]
    {
      assert Numbered(hands[t], w.hands[t]) && Numbered(queues[q].queue, w.queues[q].queue);
      queues[q].EnQueue(hands[t][k]);
      hands := hands[t := Without(hands[t], k)];
    }

    method TakeOut(t: nat, q: nat, ghost w: World)
      requires Shows(w) && Possible(w, Move.Take(t, q)) && queues[q].queue != []
      modifies this, queues[q]
      ensures Shows(Moved(w, Move.Take(t, q))) && queues == old(queues)
      ensures queues[q].queue == old(queues[q].queue)[1..] && queues[q].pool == old(queues[q].pool)
      ensures hands == old(hands)[t := old(hands[t]) + [old(queues[q].queue)[0]]]
    {
      var obj := queues[q].DeQueue([]);
      hands := hands[t := hands[t] + [obj]];
    }

    method Recycle(t: nat, k: nat, q: nat, ghost w: World)
      requires Shows(w) && Possible(w, Move.Free(t, k, q))
      modifies this, queues[q]
      ensures Shows(Moved(w, Move.Free(t, k, q))) && queues == old(queues)
      ensures queues[q].pool == old(queues[q].pool) + [old(hands[t][k])] && queues[q].queue == old(queues[q].queue)
      ensures hands == old(hands)[t := Without(old(hands[t]), k)]
    {
      assert Numbered(hands[t], w.hands[t]) && Numbered(queues[q].pool, w.queues[q].pool);
      queues[q].FreeEventObj(hands[t][k]);
      hands := hands[t := Without(hands[t], k)];
    }

    // An event is put into queue `to` in an object from the pool of queue `from`: a session's own
    // queue twice on arrival of a message, its own and the global one for a global event.
    method Post(t: nat, from: nat, to: nat, event: E.Event, ghost w: World) returns (ghost obj: Event)
      requires Shows(w) && t < |hands| && from < |queues| && to < |queues|
      modifies this, queues[from], queues[to], objects
      ensures CanDo(w, Posting(w, t, from, to, event)) && Shows(Do(w, Posting(w, t, from, to, event)))
      ensures queues == old(queues) && hands == old(hands)
      ensures queues[to].queue == old(queues[to].queue) + [obj] && obj.data == event
      ensures Taken(obj, old(queues[from].pool), queues[from].pool) && (old(queues[from].pool) == [] ==> fresh(obj))
      ensures from != to ==> queues[from].queue == old(queues[from].queue) && queues[to].pool == old(queues[to].pool)
      ensures forall o :: o in old(objects) && o != obj ==> unchanged(o)
    {
      ghost var moves := Posting(w, t, from, to, event);
      ghost var w1 := Moved(w, moves[0]);
      ghost var held := hands;
      var k := |hands[t]|;
      obj := TakeEmpty(t, from, w);
      assert Numbered(hands[t], w1.hands[t]);
      ghost var w2 := Moved(w1, moves[1]);
      Write(t, k, event, w1);
      PutIn(t, k, to, w2);
      HandEmptied(held, t, obj);
      DoThree(w, moves[0], moves[1], moves[2]);
    }

    // One round of the loops of the sessions and of the daemon: an event is taken, handled, and its
    // object goes back to the pool of the same queue; after a wake-up without an event nothing happens.
    method HandleNext(t: nat, q: nat, ghost w: World) returns (event: Option<E.Event>)
      requires Shows(w) && t < |hands| && q < |queues|
      modifies this, queues[q]
      ensures event == if w.queues[q].queue == [] then None else Some(At(w.data, w.queues[q].queue[0]))
      ensures CanDo(w, Handling(w, t, q)) && Shows(Do(w, Handling(w, t, q)))
      ensures queues == old(queues) && hands == old(hands)
      ensures old(queues[q].queue) == [] ==> event == None && unchanged(queues[q])
      ensures old(queues[q].queue) != [] ==>
                && event == Some(old(queues[q].queue[0].data)) && queues[q].queue == old(queues[q].queue)[1..]
                && queues[q].pool == old(queues[q].pool) + [old(queues[q].queue)[0]]
    {
      assert Numbered(queues[q].queue, w.queues[q].queue);
      ghost var moves := Handling(w, t, q);
      if queues[q].queue == [] {
        var nothing := queues[q].DeQueue([]);
        DoOne(w, moves[0]);
        return None;
      }
      ghost var w1 := Moved(w, moves[0]);
      ghost var held, obj := hands, queues[q].queue[0];
      var k := |hands[t]|;
      TakeOut(t, q, w);
      assert Numbered(hands[t], w1.hands[t]);
      event := Some(hands[t][k].data);
      Recycle(t, k, q, w1);
      HandEmptied(held, t, obj);
      DoTwo(w, moves[0], moves[1]);
    }
  }

  // The object is the front of the pool, or the pool is empty and stays so.
  predicate Taken(obj: Event, before: seq<Event>, after: seq<Event>) {
    if before == [] then after == [] else obj == before[0] && after == before[1..]
  }

  lemma HandEmptied<T>(hands: seq<seq<T>>, t: nat, x: T)
    requires t < |hands|
    ensures var taken := hands[t := hands[t] + [x]];
            |taken[t]| == |hands[t]| + 1 && taken[t := Without(taken[t], |hands[t]|)] == hands
  {
    assert Without(hands[t] + [x], |hands[t]|) == hands[t];
  }

  ghost function Posting(w: World, t: nat, from: nat, to: nat, event: E.Event): seq<Move>
    requires t < |w.hands|
  {
    [Move.Get(t, from), Move.Fill(t, |w.hands[t]|, event), Move.Put(t, |w.hands[t]|, to)]
  }

  ghost function Handling(w: World, t: nat, q: nat): seq<Move>
    requires t < |w.hands| && q < |w.queues|
  {
    if w.queues[q].queue == [] then [Move.Wake(t, q)] else [Move.Take(t, q), Move.Free(t, |w.hands[t]|, q)]
  }

  lemma DoOne(w: World, a: Move)
    requires Possible(w, a)
    ensures CanDo(w, [a]) && Do(w, [a]) == Moved(w, a)
  {
    assert [a][1..] == [];
    assert Do(w, [a]) == Do(Moved(w, a), []);
  }

  lemma DoTwo(w: World, a: Move, b: Move)
    requires Possible(w, a) && Possible(Moved(w, a), b)
    ensures CanDo(w, [a, b]) && Do(w, [a, b]) == Moved(Moved(w, a), b)
  {
    var w1 := Moved(w, a);
    assert [a, b][1..] == [b] && [b][1..] == [];
    assert Do(w1, [b]) == Do(Moved(w1, b), []);
  }

  lemma DoThree(w: World, a: Move, b: Move, c: Move)
    requires Possible(w, a) && Possible(Moved(w, a), b) && Possible(Moved(Moved(w, a), b), c)
    ensures CanDo(w, [a, b, c]) && Do(w, [a, b, c]) == Moved(Moved(Moved(w, a), b), c)
  {
    assert [a, b, c][1..] == [b, c];
    DoTwo(Moved(w, a), b, c);
  }

  // The object that is taken for an event from the pool of queue `from`.
  function Obtained(w: World, from: nat): nat
    requires from < |w.queues|
  {
    if w.queues[from].pool == [] then |w.data| else w.queues[from].pool[0]
  }

  // After it has been taken and filled ...
  function Filled(w: World, t: nat, from: nat, event: E.Event): World
    requires t < |w.hands| && from < |w.queues|
    requires w.queues[from].pool != [] ==> w.queues[from].pool[0] < |w.data|
  {
    var obj, pool := Obtained(w, from), w.queues[from].pool;
    World(w.queues[from := w.queues[from].(pool := if pool == [] then [] else pool[1..])],
          w.hands[t := w.hands[t] + [obj]], if obj < |w.data| then w.data[obj := event] else w.data + [event])
  }

  lemma TakesAndFills(w: World, t: nat, from: nat, event: E.Event)
    requires t < |w.hands| && from < |w.queues|
    requires w.queues[from].pool != [] ==> w.queues[from].pool[0] < |w.data|
    ensures Possible(w, Move.Get(t, from))
    ensures Possible(Moved(w, Move.Get(t, from)), Fill(t, |w.hands[t]|, event))
    ensures Moved(Moved(w, Move.Get(t, from)), Fill(t, |w.hands[t]|, event)) == Filled(w, t, from, event)
  {
    assert w.queues[from].pool == [] ==> w.queues[from := w.queues[from]] == w.queues;
    assert (w.data + [E.ConnectionClosed])[|w.data| := event] == w.data + [event];
  }

  // ... it is put in queue `to`.
  lemma PutsBack(hands: seq<seq<nat>>, w: World, t: nat, to: nat, obj: nat)
    requires t < |hands| && w.hands == hands[t := hands[t] + [obj]] && to < |w.queues| && obj < |w.data|
    ensures Possible(w, Put(t, |hands[t]|, to))
    ensures var queue := w.queues[to];
            Moved(w, Put(t, |hands[t]|, to))
            == w.(queues := w.queues[to := queue.(queue := queue.queue + [obj], put := queue.put + [w.data[obj]])],
                  hands := hands)
  {
    HandEmptied(hands, t, obj);
  }

  // What posting comes to: queue `to` has one more object, which holds the event and came from the front
  // of the pool of `from` or is new; nothing else is put anywhere, and the thread's hand is as before.
  lemma PostingPosts(w: World, t: nat, from: nat, to: nat, event: E.Event)
    requires t < |w.hands| && from < |w.queues| && to < |w.queues|
    requires w.queues[from].pool != [] ==> w.queues[from].pool[0] < |w.data|
    ensures CanDo(w, Posting(w, t, from, to, event))
    ensures Posted(w, Do(w, Posting(w, t, from, to, event)), from, to, event)
  {
    var moves := Posting(w, t, from, to, event);
    var f, obj := Filled(w, t, from, event), Obtained(w, from);
    TakesAndFills(w, t, from, event);
    PutsBack(w.hands, f, t, to, obj);
    FilledIsPosted(w, t, from, to, event);
    DoThree(w, moves[0], moves[1], moves[2]);
  }

  lemma FilledIsPosted(w: World, t: nat, from: nat, to: nat, event: E.Event)
    requires t < |w.hands| && from < |w.queues| && to < |w.queues|
    requires w.queues[from].pool != [] ==> w.queues[from].pool[0] < |w.data|
    ensures var f, obj := Filled(w, t, from, event), Obtained(w, from);
            var queue := f.queues[to].(queue := f.queues[to].queue + [obj], put := f.queues[to].put + [f.data[obj]]);
            Posted(w, f.(queues := f.queues[to := queue], hands := w.hands), from, to, event)
  {
  }

  predicate Posted(w: World, w': World, from: nat, to: nat, event: E.Event) {
    && from < |w.queues| && to < |w.queues| == |w'.queues|
    && var pool := w.queues[from].pool;
       var obj := if pool == [] then |w.data| else pool[0];
       && w'.hands == w.hands
       && w'.data == (if obj < |w.data| then w.data[obj := event] else w.data + [event])
       && w'.queues[to].queue == w.queues[to].queue + [obj]
       && w'.queues[to].put == w.queues[to].put + [event] && w'.queues[to].got == w.queues[to].got
       && w'.queues[from].pool == (if pool == [] then [] else pool[1..])
       && (from != to ==> w'.queues[to].pool == w.queues[to].pool
                          && w'.queues[from] == w.queues[from].(pool := w'.queues[from].pool))
       && forall q :: 0 <= q < |w.queues| && q != from && q != to ==> w'.queues[q] == w.queues[q]
  }

  // What handling comes to: the front object of the queue is at the back of the pool of the same queue.
  lemma HandlingRecycles(w: World, t: nat, q: nat)
    requires t < |w.hands| && q < |w.queues| && (w.queues[q].queue != [] ==> w.queues[q].queue[0] < |w.data|)
    ensures CanDo(w, Handling(w, t, q))
    ensures var w', queue := Do(w, Handling(w, t, q)), w.queues[q];
            if queue.queue == [] then w' == w
            else w' == w.(queues := w.queues[q := Queue(queue.queue[1..], queue.pool + [queue.queue[0]], queue.put,
                                                        queue.got + [w.data[queue.queue[0]]])])
  {
    var moves := Handling(w, t, q);
    if w.queues[q].queue == [] {
      DoOne(w, moves[0]);
    } else {
      HandEmptied(w.hands, t, w.queues[q].queue[0]);
      DoTwo(w, moves[0], moves[1]);
    }
  }
}
