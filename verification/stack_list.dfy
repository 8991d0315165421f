// The parser of `am stack list` (AdbProxy.cpp), which starts over on the same map after a broken connection.

module StackLists {
  import opened Wrappers

  datatype Bounds = Bounds(left: int, top: int, right: int, bottom: int)

  datatype Modes = Modes(windowingMode: int, activityType: int)

  datatype Shape = Shape(displayId: int, userId: int, bounds: Bounds)

  datatype About = About(name: string, topActivityName: string, userId: int, visible: bool, bounds: Bounds)

  datatype TaskInfo = TaskInfo(taskId: int, stackId: int, about: About)

  datatype StackInfo = StackInfo(stackId: int, shape: Shape, modes: Modes, tasks: map<int, TaskInfo>)

  type Stacks = map<int, StackInfo>

  // What the scan finds in one line. `Broken` is one of the two error messages of adb.
  datatype Line =
    | Header(id: int, shape: Shape)
    | Configuration(modes: Modes)
    | Task(id: int, about: About)
    | Other
    | Broken

  const NO_STACK := -1

  // One run of the command. `leftover` is what the uninitialised modes of the local `stack` happen to be.
  datatype Attempt = Attempt(connects: bool, pipe: bool, lines: seq<Line>, leftover: Modes)

  datatype Status = Done | NoPipe | OutOfRange

  // ----- One line, and the lines of one attempt -----

  // `current` is the id in the local `stack`; `thrown` says that `at` threw.
  datatype Scan = Scan(stacks: Stacks, current: int, thrown: bool)

  function ParseLine(s: Scan, line: Line, leftover: Modes): Scan
    requires !s.thrown
  {
    match line
    case Header(id, shape) =>
      var emplaced := if id in s.stacks then s.stacks else s.stacks[id := StackInfo(id, shape, leftover, map[])];
      Scan(emplaced, id, false)
    case Configuration(modes) =>
      if s.current in s.stacks
      then s.(stacks := s.stacks[s.current := s.stacks[s.current].(modes := modes)])
      else s.(thrown := true)
    case Task(id, about) =>
      if s.current !in s.stacks then s.(thrown := true)
      else
        var stack := s.stacks[s.current];
        if id in stack.tasks then s
        else s.(stacks := s.stacks[s.current := stack.(tasks := stack.tasks[id := TaskInfo(id, s.current, about)])])
    case _ => s
  }

  function Parse(stacks: Stacks, lines: seq<Line>, leftover: Modes): Scan {
    if lines == [] then Scan(stacks, NO_STACK, false)
    else
      var s := Parse(stacks, lines[..|lines| - 1], leftover);
      if s.thrown then s else ParseLine(s, lines[|lines| - 1], leftover)
  }

  // ----- The proxy -----

  // The lines before the first error message.
  function Heard(lines: seq<Line>): seq<Line> {
    if lines == [] || lines[0].Broken? then [] else [lines[0]] + Heard(lines[1..])
  }

  lemma {:induction false} HeardStops(lines: seq<Line>, i: nat)
    requires i <= |lines| && Broken !in lines[..i]
    requires i == |lines| || lines[i].Broken?
    ensures Heard(lines) == lines[..i]
    decreases i
  {
    if i > 0 {
      assert lines[..i][0] == lines[0];
      assert lines[1..][..i - 1] == lines[..i][1..];
      HeardStops(lines[1..], i - 1);
    }
  }

  lemma {:induction false} HeardExtends(lines: seq<Line>, i: nat)
    requires i <= |lines| && Broken !in lines[..i]
    ensures lines[..i] <= Heard(lines)
    decreases i
  {
    if i > 0 {
      assert lines[..i][0] == lines[0];
      assert lines[1..][..i - 1] == lines[..i][1..];
      HeardExtends(lines[1..], i - 1);
      assert lines[..i] == [lines[0]] + lines[1..][..i - 1];
    }
  }

  lemma {:induction false} ThrownStays(stacks: Stacks, prefix: seq<Line>, lines: seq<Line>, leftover: Modes)
    requires prefix <= lines && Parse(stacks, prefix, leftover).thrown
    ensures Parse(stacks, lines, leftover) == Parse(stacks, prefix, leftover)
    decreases |lines|
  {
    if |prefix| == |lines| {
      assert prefix == lines;
    } else {
      ThrownStays(stacks, prefix, lines[..|lines| - 1], leftover);
    }
  }

  // The attempts of a call that returns: each but the last is broken off.
  ghost predicate Ends(attempts: seq<Attempt>) {
    && attempts != []
    && (forall k :: 0 <= k < |attempts| - 1 ==> attempts[k].pipe && Broken in attempts[k].lines)
    && (attempts[|attempts| - 1].pipe ==> Broken !in attempts[|attempts| - 1].lines)
  }

  datatype Outcome = Outcome(stacks: Stacks, status: Status, connected: bool)

  // A retry that cannot even start the command still counts as done.
  ghost function Run(stacks: Stacks, attempts: seq<Attempt>, connected: bool): Outcome
    requires Ends(attempts)
    decreases |attempts|
  {
    var first := attempts[0];
    var linked := connected || first.connects;
    if !first.pipe then Outcome(stacks, NoPipe, linked)
    else
      var s := Parse(stacks, Heard(first.lines), first.leftover);
      if s.thrown then Outcome(s.stacks, OutOfRange, linked)
      else if Broken !in first.lines then Outcome(s.stacks, Done, linked)
      else
        var retry := Run(s.stacks, attempts[1..], false);
        if retry.status.NoPipe? then retry.(status := Done) else retry
  }

  // ----- Where a call ends, said without following it -----

  // The map after the first `k` attempts.
  ghost function MapAfter(stacks: Stacks, attempts: seq<Attempt>, k: nat): Stacks
    requires k <= |attempts|
    decreases k
  {
    if k == 0 then stacks
    else
      var last := attempts[k - 1];
      Parse(MapAfter(stacks, attempts, k - 1), Heard(last.lines), last.leftover).stacks
  }

  ghost predicate Throws(stacks: Stacks, attempts: seq<Attempt>, k: nat)
    requires k < |attempts|
  {
    Parse(MapAfter(stacks, attempts, k), Heard(attempts[k].lines), attempts[k].leftover).thrown
  }

  // Attempt `k` is broken off and followed by another.
  ghost predicate BreaksOff(stacks: Stacks, attempts: seq<Attempt>, k: nat)
    requires k < |attempts|
  {
    attempts[k].pipe && !Throws(stacks, attempts, k) && Broken in attempts[k].lines
  }

  lemma {:induction false} MapAfterTail(stacks: Stacks, attempts: seq<Attempt>, k: nat)
    requires 1 <= k <= |attempts|
    ensures MapAfter(stacks, attempts, k) == MapAfter(MapAfter(stacks, attempts, 1), attempts[1..], k - 1)
    decreases k
  {
    if k > 1 {
      MapAfterTail(stacks, attempts, k - 1);
    }
  }

  ghost predicate EndsAt(stacks: Stacks, attempts: seq<Attempt>, connected: bool, e: nat, o: Outcome) {
    && e < |attempts| && !BreaksOff(stacks, attempts, e)
    && (forall k :: 0 <= k < e ==> BreaksOff(stacks, attempts, k))
    && o.connected == (attempts[e].connects || (e == 0 && connected))
    && o.stacks == MapAfter(stacks, attempts, if attempts[e].pipe then e + 1 else e)
    && o.status == (if !attempts[e].pipe then (if e == 0 then NoPipe else Done)
                    else if Throws(stacks, attempts, e) then OutOfRange else Done)
  }

  lemma TailAlike(stacks: Stacks, attempts: seq<Attempt>, k: nat)
    requires k + 1 < |attempts|
    ensures var now, rest := MapAfter(stacks, attempts, 1), attempts[1..];
            && Throws(now, rest, k) == Throws(stacks, attempts, k + 1)
            && BreaksOff(now, rest, k) == BreaksOff(stacks, attempts, k + 1)
  {
    MapAfterTail(stacks, attempts, k + 1);
  }

  lemma EndsLater(stacks: Stacks, attempts: seq<Attempt>, connected: bool, f: nat, o: Outcome)
    requires attempts != [] && BreaksOff(stacks, attempts, 0)
    requires EndsAt(MapAfter(stacks, attempts, 1), attempts[1..], false, f, o)
    ensures EndsAt(stacks, attempts, connected, f + 1, if o.status.NoPipe? then o.(status := Done) else o)
  {
    var now, rest := MapAfter(stacks, attempts, 1), attempts[1..];
    TailAlike(stacks, attempts, f);
    MapAfterTail(stacks, attempts, f + 1);
    MapAfterTail(stacks, attempts, f + 2);
    forall k | 0 <= k < f + 1 ensures BreaksOff(stacks, attempts, k) {
      if k > 0 {
        assert BreaksOff(now, rest, k - 1);
        TailAlike(stacks, attempts, k - 1);
      }
    }
  }

  lemma EndsAtOnce(stacks: Stacks, attempts: seq<Attempt>, connected: bool)
    requires Ends(attempts) && !BreaksOff(stacks, attempts, 0)
    ensures EndsAt(stacks, attempts, connected, 0, Run(stacks, attempts, connected))
  {
    assert MapAfter(stacks, attempts, 0) == stacks;
  }

  lemma Retried(stacks: Stacks, attempts: seq<Attempt>, connected: bool)
    requires Ends(attempts) && BreaksOff(stacks, attempts, 0)
    ensures Ends(attempts[1..])
    ensures var retry := Run(MapAfter(stacks, attempts, 1), attempts[1..], false);
            Run(stacks, attempts, connected) == if retry.status.NoPipe? then retry.(status := Done) else retry
  {
    assert MapAfter(stacks, attempts, 0) == stacks;
  }

  // The call ends with the first attempt that is not broken off. It fails only when the very first one
  // cannot start the command; when a later one cannot, what was read so far counts as the result. An
  // exception ends it. The proxy is left connected exactly if this last attempt has connected, or was the
  // first one and found it connected: every retry connects anew.
  lemma {:induction false} CallEndsAt(stacks: Stacks, attempts: seq<Attempt>, connected: bool) returns (e: nat)
    requires Ends(attempts)
    ensures EndsAt(stacks, attempts, connected, e, Run(stacks, attempts, connected))
    decreases |attempts|
  {
    if BreaksOff(stacks, attempts, 0) {
      var now, rest := MapAfter(stacks, attempts, 1), attempts[1..];
      Retried(stacks, attempts, connected);
      var f := CallEndsAt(now, rest, false);
      EndsLater(stacks, attempts, connected, f, Run(now, rest, false));
      e := f + 1;
    } else {
      EndsAtOnce(stacks, attempts, connected);
      e := 0;
    }
  }

  class AdbProxy {
    var connected: bool

    // The loop over the lines of one attempt; `broken` says that it met an error message.
    method ReadListing(attempt: Attempt, stacks: Stacks) returns (after: Stacks, thrown: bool, broken: bool)
      ensures var s := Parse(stacks, Heard(attempt.lines), attempt.leftover);
        after == s.stacks && thrown == s.thrown
      ensures !thrown ==> broken == (Broken in attempt.lines)
    {
      after, thrown, broken := stacks, false, false;
      var current := NO_STACK;
      var i := 0;
      while i < |attempt.lines| && !attempt.lines[i].Broken?
        invariant i <= |attempt.lines| && Broken !in attempt.lines[..i] && !broken
        invariant Scan(after, current, thrown) == Parse(stacks, attempt.lines[..i], attempt.leftover)
        invariant !thrown
      {
        assert attempt.lines[..i + 1][..i] == attempt.lines[..i];
        after, current, thrown := ReadLine(attempt.lines[i], after, current, attempt.leftover);
        i := i + 1;
        if thrown {
          HeardExtends(attempt.lines, i);
          ThrownStays(stacks, attempt.lines[..i], Heard(attempt.lines), attempt.leftover);
          return;
        }
      }
      HeardStops(attempt.lines, i);
      broken := i < |attempt.lines|;
      assert broken ==> attempt.lines[i] == Broken;
    }

    method ReadLine(line: Line, stacks: Stacks, latest: int, leftover: Modes)
      returns (after: Stacks, current: int, thrown: bool)
      ensures Scan(after, current, thrown) == ParseLine(Scan(stacks, latest, false), line, leftover)
    {
      after, current, thrown := stacks, latest, false;
      match line {
        case Header(id, shape) =>
          current := id;
          if id !in after {
            after := after[id := StackInfo(id, shape, leftover, map[])];
          }
        case Configuration(modes) =>
          if current !in after {
            thrown := true;
          } else {
            after := after[current := after[current].(modes := modes)];
          }
        case Task(id, about) =>
          if current !in after {
            thrown := true;
          } else if id !in after[current].tasks {
            var task := TaskInfo(id, current, about);
            after := after[current := after[current].(tasks := after[current].tasks[id := task])];
          }
        case _ =>
      }
    }

    method GetStackList(attempts: seq<Attempt>, stacks: Stacks) returns (after: Stacks, status: Status)
      requires Ends(attempts)
      modifies this
      ensures Outcome(after, status, connected) == Run(stacks, attempts, old(connected))
      ensures status.NoPipe? <==> !attempts[0].pipe
      decreases |attempts|
    {
      if !connected {
        connected := attempts[0].connects;
      }
      if !attempts[0].pipe {
        return stacks, NoPipe;
      }
      var thrown, broken;
      after, thrown, broken := ReadListing(attempts[0], stacks);
      status := if thrown then OutOfRange else Done;
      if !thrown && broken {
        connected := false;
        var nested;
        after, nested := GetStackList(attempts[1..], after);
        status := if nested.OutOfRange? then OutOfRange else Done;
      }
    }
  }

  // ----- What a parse yields, said without parsing -----

  function Latest(lines: seq<Line>): int {
    if lines == [] then NO_STACK
    else if lines[|lines| - 1].Header? then lines[|lines| - 1].id
    else Latest(lines[..|lines| - 1])
  }

  // The first header of a stack.
  function FirstHeader(lines: seq<Line>, id: int): Option<Shape> {
    if lines == [] then None
    else
      var line := lines[|lines| - 1];
      match FirstHeader(lines[..|lines| - 1], id)
      case Some(shape) => Some(shape)
      case None => if line.Header? && line.id == id then Some(line.shape) else None
  }

  // The first line of a task below a header of the stack.
  function FirstTask(lines: seq<Line>, id: int, task: int): Option<TaskInfo> {
    if lines == [] then None
    else
      var line := lines[|lines| - 1];
      match FirstTask(lines[..|lines| - 1], id, task)
      case Some(info) => Some(info)
      case None =>
        if line.Task? && line.id == task && Latest(lines[..|lines| - 1]) == id
        then Some(TaskInfo(task, id, line.about)) else None
  }

  // The last configuration below a header of the stack.
  function LastModes(lines: seq<Line>, id: int): Option<Modes> {
    if lines == [] then None
    else
      var line := lines[|lines| - 1];
      if line.Configuration? && Latest(lines[..|lines| - 1]) == id then Some(line.modes)
      else LastModes(lines[..|lines| - 1], id)
  }

  function Or<T>(first: Option<T>, second: Option<T>): Option<T> {
    if first.Some? then first else second
  }

  function ShapeIn(stacks: Stacks, id: int): Option<Shape> {
    if id in stacks then Some(stacks[id].shape) else None
  }

  function ModesIn(stacks: Stacks, id: int): Option<Modes> {
    if id in stacks then Some(stacks[id].modes) else None
  }

  function TaskIn(stacks: Stacks, id: int, task: int): Option<TaskInfo> {
    if id in stacks && task in stacks[id].tasks then Some(stacks[id].tasks[task]) else None
  }

  ghost predicate KeysMatch(stacks: Stacks) {
    forall id :: id in stacks ==> stacks[id].stackId == id
  }

  lemma SameStacks(a: Stacks, b: Stacks)
    requires KeysMatch(a) && KeysMatch(b)
    requires forall id :: ShapeIn(a, id) == ShapeIn(b, id) && ModesIn(a, id) == ModesIn(b, id)
    requires forall id, task :: TaskIn(a, id, task) == TaskIn(b, id, task)
    ensures a == b
  {
    forall id ensures id in a <==> id in b {
      assert ShapeIn(a, id) == ShapeIn(b, id);
    }
    forall id | id in a ensures a[id] == b[id] {
      assert ShapeIn(a, id) == ShapeIn(b, id) && ModesIn(a, id) == ModesIn(b, id);
      forall task ensures task in a[id].tasks <==> task in b[id].tasks {
        assert TaskIn(a, id, task) == TaskIn(b, id, task);
      }
      forall task | task in a[id].tasks ensures a[id].tasks[task] == b[id].tasks[task] {
        assert TaskIn(a, id, task) == TaskIn(b, id, task);
      }
      assert a[id].tasks == b[id].tasks;
    }
  }

  // Stacks and tasks: what was there stays, and the first line wins. Modes: the last line wins.
  lemma {:induction false} ParseYields(stacks: Stacks, lines: seq<Line>, leftover: Modes, id: int, task: int)
    requires !Parse(stacks, lines, leftover).thrown
    ensures Parse(stacks, lines, leftover).current == Latest(lines)
    ensures ShapeIn(Parse(stacks, lines, leftover).stacks, id) == Or(ShapeIn(stacks, id), FirstHeader(lines, id))
    ensures TaskIn(Parse(stacks, lines, leftover).stacks, id, task)
         == Or(TaskIn(stacks, id, task), FirstTask(lines, id, task))
    ensures LastModes(lines, id).Some? ==> id in Parse(stacks, lines, leftover).stacks
    ensures FirstTask(lines, id, task).Some? ==> id in Parse(stacks, lines, leftover).stacks
    ensures ModesIn(Parse(stacks, lines, leftover).stacks, id)
         == if id !in Parse(stacks, lines, leftover).stacks then None
            else Or(LastModes(lines, id), Or(ModesIn(stacks, id), Some(leftover)))
    decreases |lines|
  {
    if lines != [] {
      ParseYields(stacks, lines[..|lines| - 1], leftover, id, task);
    }
  }

  lemma {:induction false} ParseKeysMatch(stacks: Stacks, lines: seq<Line>, leftover: Modes)
    requires KeysMatch(stacks)
    ensures KeysMatch(Parse(stacks, lines, leftover).stacks)
    decreases |lines|
  {
    if lines != [] {
      ParseKeysMatch(stacks, lines[..|lines| - 1], leftover);
    }
  }

  // ----- When `at` throws -----

  ghost predicate HasHeader(lines: seq<Line>) {
    exists line :: line in lines && line.Header?
  }

  // Every configuration and every task has a header somewhere above it.
  ghost predicate Headed(lines: seq<Line>) {
    forall i :: 0 <= i < |lines| && (lines[i].Configuration? || lines[i].Task?) ==> HasHeader(lines[..i])
  }

  lemma {:induction false} LatestIsListed(lines: seq<Line>, id: int)
    ensures HasHeader(lines) ==> FirstHeader(lines, Latest(lines)).Some?
    ensures !HasHeader(lines) ==> Latest(lines) == NO_STACK && FirstHeader(lines, id).None?
    decreases |lines|
  {
    if lines != [] {
      var init, line := lines[..|lines| - 1], lines[|lines| - 1];
      assert lines == init + [line];
      assert line in lines;
      LatestIsListed(init, id);
      assert HasHeader(init) ==> HasHeader(lines);
    }
  }

  // Into a map without a stack -1 a listing parses without exception exactly when it is headed.
  lemma {:induction false} ParseThrowsExactly(stacks: Stacks, lines: seq<Line>, leftover: Modes)
    ensures Parse(stacks, lines, leftover).thrown <==> -1 !in stacks && !Headed(lines)
    decreases |lines|
  {
    if lines != [] {
      var init := lines[..|lines| - 1];
      ParseThrowsExactly(stacks, init, leftover);
      assert forall i :: 0 <= i < |init| ==> init[i] == lines[i] && init[..i] == lines[..i];
      var s := Parse(stacks, init, leftover);
      if !s.thrown {
        ParseYields(stacks, init, leftover, s.current, 0);
        LatestIsListed(init, s.current);
      }
    }
  }

  // ----- Starting over -----

  lemma {:induction false} FirstStays(prefix: seq<Line>, lines: seq<Line>, id: int, task: int)
    requires prefix <= lines
    ensures FirstHeader(prefix, id).Some? ==> FirstHeader(lines, id) == FirstHeader(prefix, id)
    ensures FirstTask(prefix, id, task).Some? ==> FirstTask(lines, id, task) == FirstTask(prefix, id, task)
    decreases |lines|
  {
    if |prefix| == |lines| {
      assert prefix == lines;
    } else {
      FirstStays(prefix, lines[..|lines| - 1], id, task);
    }
  }

  // What the map holds is what the listing says first.
  ghost predicate Within(stacks: Stacks, lines: seq<Line>) {
    && KeysMatch(stacks)
    && (forall id :: id in stacks ==> FirstHeader(lines, id) == ShapeIn(stacks, id))
    && (forall id, task :: TaskIn(stacks, id, task).Some? ==> FirstTask(lines, id, task) == TaskIn(stacks, id, task))
  }

  lemma PrefixStaysWithin(stacks: Stacks, prefix: seq<Line>, lines: seq<Line>, leftover: Modes)
    requires Within(stacks, lines) && prefix <= lines && Headed(lines)
    ensures !Parse(stacks, prefix, leftover).thrown
    ensures Within(Parse(stacks, prefix, leftover).stacks, lines)
  {
    ParseThrowsExactly(stacks, lines, leftover);
    if Parse(stacks, prefix, leftover).thrown {
      ThrownStays(stacks, prefix, lines, leftover);
    }
    var after := Parse(stacks, prefix, leftover).stacks;
    ParseKeysMatch(stacks, prefix, leftover);
    forall id | id in after ensures FirstHeader(lines, id) == ShapeIn(after, id) {
      ParseYields(stacks, prefix, leftover, id, 0);
      FirstStays(prefix, lines, id, 0);
    }
    forall id, task | TaskIn(after, id, task).Some? ensures FirstTask(lines, id, task) == TaskIn(after, id, task) {
      ParseYields(stacks, prefix, leftover, id, task);
      FirstStays(prefix, lines, id, task);
    }
  }

  // Every stack has a configuration below one of its headers.
  ghost predicate Configured(lines: seq<Line>) {
    forall id :: FirstHeader(lines, id).Some? ==> LastModes(lines, id).Some?
  }

  lemma WholeIsDetermined(stacks: Stacks, lines: seq<Line>, leftover: Modes, leftover': Modes)
    requires Within(stacks, lines) && Headed(lines) && Configured(lines)
    ensures Parse(stacks, lines, leftover).stacks == Parse(map[], lines, leftover').stacks
  {
    PrefixStaysWithin(stacks, lines, lines, leftover);
    PrefixStaysWithin(map[], lines, lines, leftover');
    var a, b := Parse(stacks, lines, leftover).stacks, Parse(map[], lines, leftover').stacks;
    forall id ensures ShapeIn(a, id) == ShapeIn(b, id) && ModesIn(a, id) == ModesIn(b, id) {
      ParseYields(stacks, lines, leftover, id, 0);
      ParseYields(map[], lines, leftover', id, 0);
    }
    forall id, task ensures TaskIn(a, id, task) == TaskIn(b, id, task) {
      ParseYields(stacks, lines, leftover, id, task);
      ParseYields(map[], lines, leftover', id, task);
    }
    SameStacks(a, b);
  }

  // Each attempt but the last hears only a beginning of the listing, the last one all of it.
  ghost predicate Retries(attempts: seq<Attempt>, lines: seq<Line>) {
    && Ends(attempts)
    && (forall k :: 0 <= k < |attempts| - 1 ==> Heard(attempts[k].lines) <= lines)
    && attempts[|attempts| - 1].pipe && Heard(attempts[|attempts| - 1].lines) == lines
  }

  lemma {:induction false} RetryFrom(stacks: Stacks, attempts: seq<Attempt>, connected: bool,
                                           lines: seq<Line>, leftover: Modes)
    requires Headed(lines) && Configured(lines) && Within(stacks, lines) && Retries(attempts, lines)
    ensures Run(stacks, attempts, connected).stacks == Parse(map[], lines, leftover).stacks
    ensures Run(stacks, attempts, connected).status == Done
    decreases |attempts|
  {
    var first := attempts[0];
    PrefixStaysWithin(stacks, Heard(first.lines), lines, first.leftover);
    if |attempts| == 1 {
      WholeIsDetermined(stacks, lines, first.leftover, leftover);
    } else {
      assert Retries(attempts[1..], lines);
      RetryFrom(Parse(stacks, Heard(first.lines), first.leftover).stacks, attempts[1..], false, lines, leftover);
    }
  }

  // However often the connection breaks, the call yields what one parse of the whole listing yields.
  lemma RetryIsHarmless(attempts: seq<Attempt>, connected: bool, lines: seq<Line>, leftover: Modes)
    requires Headed(lines) && Configured(lines) && Retries(attempts, lines)
    ensures Run(map[], attempts, connected).stacks == Parse(map[], lines, leftover).stacks
    ensures Run(map[], attempts, connected).status == Done
  {
    RetryFrom(map[], attempts, connected, lines, leftover);
  }

  // A stack without configuration keeps modes that nobody set, so the result is determined exactly when
  // every stack has one.
  lemma DeterminedExactly(lines: seq<Line>)
    requires Headed(lines)
    ensures (forall a, b :: Parse(map[], lines, a).stacks == Parse(map[], lines, b).stacks) <==> Configured(lines)
  {
    if Configured(lines) {
      forall a, b ensures Parse(map[], lines, a).stacks == Parse(map[], lines, b).stacks {
        WholeIsDetermined(map[], lines, a, b);
      }
    } else {
      var id :| FirstHeader(lines, id).Some? && LastModes(lines, id).None?;
      var a, b := Modes(0, 0), Modes(1, 1);
      ParseThrowsExactly(map[], lines, a);
      ParseThrowsExactly(map[], lines, b);
      ParseYields(map[], lines, a, id, 0);
      ParseYields(map[], lines, b, id, 0);
    }
  }

  // ----- Where tasks are filed -----

  lemma {:induction false} FirstTaskIsListed(lines: seq<Line>, id: int, task: int) returns (j: nat)
    requires FirstTask(lines, id, task).Some?
    ensures j < |lines| && lines[j].Task? && lines[j].id == task && Latest(lines[..j]) == id
    ensures FirstTask(lines, id, task) == Some(TaskInfo(task, id, lines[j].about))
    ensures FirstTask(lines[..j], id, task).None?
    decreases |lines|
  {
    var init := lines[..|lines| - 1];
    if FirstTask(init, id, task).Some? {
      j := FirstTaskIsListed(init, id, task);
      assert init[..j] == lines[..j];
    } else {
      j := |lines| - 1;
    }
  }

  // A task line puts the task under the stack of the latest header, with both ids equal to the keys;
  // of several lines for the same place the first counts.
  lemma TaskIsFiled(lines: seq<Line>, leftover: Modes, j: nat)
    requires Headed(lines) && j < |lines| && lines[j].Task?
    ensures var filed := TaskIn(Parse(map[], lines, leftover).stacks, Latest(lines[..j]), lines[j].id);
      && filed.Some? && filed.value.taskId == lines[j].id && filed.value.stackId == Latest(lines[..j])
      && (FirstTask(lines[..j], Latest(lines[..j]), lines[j].id).None? ==> filed.value.about == lines[j].about)
  {
    var id, task := Latest(lines[..j]), lines[j].id;
    ParseThrowsExactly(map[], lines, leftover);
    ParseYields(map[], lines, leftover, id, task);
    assert lines[..j + 1][..j] == lines[..j];
    FirstStays(lines[..j + 1], lines, id, task);
    var i := FirstTaskIsListed(lines, id, task);
  }

  // Nothing else is in the map.
  lemma FiledTaskWasListed(lines: seq<Line>, leftover: Modes, id: int, task: int) returns (j: nat)
    requires Headed(lines) && TaskIn(Parse(map[], lines, leftover).stacks, id, task).Some?
    ensures j < |lines| && lines[j].Task? && lines[j].id == task && Latest(lines[..j]) == id
    ensures TaskIn(Parse(map[], lines, leftover).stacks, id, task).value == TaskInfo(task, id, lines[j].about)
  {
    ParseThrowsExactly(map[], lines, leftover);
    ParseYields(map[], lines, leftover, id, task);
    j := FirstTaskIsListed(lines, id, task);
  }
}
