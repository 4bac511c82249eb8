/**
 Multi-task turns: the task list made by the assistant's interpreter
 (model-packs/assistant/controllers/runtime_adapters.py) and the walk that dispatches or defers every
 task of it (src/lumina/api/processing.py).
 */
module TaskGraph {
  import opened Text

  type Data = map<string, string>

  /** An entry of the interpreter's answer; entries that are not dictionaries are skipped. */
  datatype Raw = NotATask | RawTask(id: Option<int>, intent: string, blockedBy: seq<int>, data: Data)

  datatype Node = Node(id: int, intent: string, blockedBy: seq<int>, data: Data) {
    predicate Blocked() { blockedBy != [] }
  }

  datatype Deferred = Deferred(id: int, intent: string, data: Data)

  // ---------------------------------------------------------------- the interpreter's list

  /** A task without an id gets its position in the answer, counted from 1. */
  function Validated(raws: seq<Raw>): seq<Node> {
    if raws == [] then []
    else
      var before := Validated(raws[..|raws| - 1]);
      match raws[|raws| - 1]
      case NotATask => before
      case RawTask(id, intent, blockedBy, data) =>
        before + [Node(if id.Some? then id.value else |raws|, intent, blockedBy, data)]
  }

  /** `interpret_multi_task_input`: an answer with no usable task becomes a graph of one. */
  function Graph(raws: seq<Raw>, whole: Data, wholeIntent: string): (graph: seq<Node>)
    ensures graph != []
  {
    if Validated(raws) != [] then Validated(raws) else [Node(1, wholeIntent, [], whole)]
  }

  /** Tasks keep their order and their data; without an id they get their position, and no usable task means one. */
  lemma GraphIs(raws: seq<Raw>, r: Raw, whole: Data, wholeIntent: string)
    ensures Validated(raws + [r]) == Validated(raws) + match r
      case NotATask => []
      case RawTask(id, intent, blockedBy, data) =>
        [Node(if id.Some? then id.value else |raws| + 1, intent, blockedBy, data)]
    ensures Validated([]) == []
    ensures Validated(raws) == [] ==> Graph(raws, whole, wholeIntent) == [Node(1, wholeIntent, [], whole)]
    ensures Validated(raws) != [] ==> Graph(raws, whole, wholeIntent) == Validated(raws)
  {
    assert (raws + [r])[..|raws|] == raws;
  }

  method Interpret(raws: seq<Raw>, whole: Data, wholeIntent: string) returns (graph: seq<Node>)
    ensures graph == Graph(raws, whole, wholeIntent)
  {
    graph := [];
    for i := 0 to |raws|
      invariant graph == Validated(raws[..i])
    {
      assert raws[..i + 1][..i] == raws[..i];
      match raws[i]
      case NotATask =>
      case RawTask(id, intent, blockedBy, data) =>
        graph := graph + [Node(if id.Some? then id.value else i + 1, intent, blockedBy, data)];
    }
    assert raws[..|raws|] == raws;
    if graph == [] {
      graph := [Node(1, wholeIntent, [], whole)];
    }
  }

  ghost predicate DistinctIds(graph: seq<Node>) {
    forall i, j | 0 <= i < j < |graph| :: graph[i].id != graph[j].id
  }

  // ---------------------------------------------------------------- the walk

  predicate AllBlocked(graph: seq<Node>) {
    forall n <- graph :: n.Blocked()
  }

  /** The position of the first unblocked task, or 0. */
  function PrimaryAt(graph: seq<Node>): (k: nat)
    requires graph != []
    ensures k < |graph|
    ensures AllBlocked(graph) ==> k == 0
    ensures !AllBlocked(graph) ==> !graph[k].Blocked() && forall i | 0 <= i < k :: graph[i].Blocked()
  {
    if AllBlocked(graph) || !graph[0].Blocked() then 0
    else
      assert graph == [graph[0]] + graph[1..];
      1 + PrimaryAt(graph[1..])
  }

  /** The unblocked tasks whose id is not `primary`. */
  function Secondaries(graph: seq<Node>, primary: int): seq<Node> {
    if graph == [] then []
    else
      var before := Secondaries(graph[..|graph| - 1], primary);
      var n := graph[|graph| - 1];
      if n.id != primary && !n.Blocked() then before + [n] else before
  }

  /** The tasks run through the orchestrator, in order. */
  function Dispatched(graph: seq<Node>): seq<Node>
    requires graph != []
  {
    [graph[PrimaryAt(graph)]] + Secondaries(graph, graph[PrimaryAt(graph)].id)
  }

  function BlockedTasks(graph: seq<Node>): seq<Node> {
    if graph == [] then []
    else
      var before := BlockedTasks(graph[..|graph| - 1]);
      if graph[|graph| - 1].Blocked() then before + [graph[|graph| - 1]] else before
  }

  function UnblockedTasks(graph: seq<Node>): seq<Node> {
    if graph == [] then []
    else
      var before := UnblockedTasks(graph[..|graph| - 1]);
      if graph[|graph| - 1].Blocked() then before else before + [graph[|graph| - 1]]
  }

  function AsDeferred(tasks: seq<Node>): seq<Deferred> {
    seq(|tasks|, i requires 0 <= i < |tasks| => Deferred(tasks[i].id, tasks[i].intent, tasks[i].data))
  }

  /**
   What comes before the orchestrator, both judged on the primary task alone: a deferred greeting, and the
   inspection, whose denial counts only outside the holodeck.
   */
  datatype Gate = Gate(greets: Node -> bool, approves: Node -> bool, holodeck: bool) {
    predicate Lets(primary: Node) { !greets(primary) && (approves(primary) || holodeck) }
  }

  /** What the walk sees of the orchestrator: the tasks it was given, and the queue in its state. */
  class Orchestrator {
    var processed: seq<Node>
    var pending: seq<Deferred>
    /** Only a dictionary state can hold the queue. */
    var dictState: bool

    method ProcessTurn(task: Node)
      modifies this`processed
      ensures processed == old(processed) + [task]
    {
      processed := processed + [task];
    }

    /**
     The part of `process_message` that picks the primary task, runs the others and defers the blocked. A
     greeting or a denial ends the turn before any task is run or deferred.
     */
    method Walk(graph: seq<Node>, gate: Gate) returns (walked: bool)
      requires graph != []
      modifies this`processed, this`pending
      ensures var primary := graph[PrimaryAt(graph)];
              walked <==> !gate.greets(primary) && (gate.approves(primary) || gate.holodeck)
      ensures processed == old(processed) + if walked then Dispatched(graph) else []
      ensures pending == if walked && BlockedTasks(graph) != [] && dictState then AsDeferred(BlockedTasks(graph))
                         else old(pending)
    {
      hide BlockedTasks, Secondaries;
      var primary := FindPrimary(graph);
      walked := gate.Lets(primary);
      if !walked {
        return;
      }
      ProcessTurn(primary);
      RunSecondaries(graph, primary.id);
      assert processed == old(processed) + Dispatched(graph);
      var blocked := CollectBlocked(graph);
      if blocked != [] && dictState {
        pending := AsDeferred(blocked);
      }
    }

    static method FindPrimary(graph: seq<Node>) returns (primary: Node)
      requires graph != []
      ensures primary == graph[PrimaryAt(graph)]
    {
      var at := 0;
      while at < |graph| && graph[at].Blocked()
        invariant 0 <= at <= |graph|
        invariant forall i | 0 <= i < at :: graph[i].Blocked()
      {
        at := at + 1;
      }
      primary := if at < |graph| then graph[at] else graph[0];
    }

    method RunSecondaries(graph: seq<Node>, primary: int)
      modifies this`processed
      ensures processed == old(processed) + Secondaries(graph, primary)
    {
      for i := 0 to |graph|
        invariant processed == old(processed) + Secondaries(graph[..i], primary)
      {
        assert graph[..i + 1][..i] == graph[..i];
        if graph[i].id == primary || graph[i].Blocked() {
          continue;
        }
        ProcessTurn(graph[i]);
      }
      assert graph[..|graph|] == graph;
    }

    static method CollectBlocked(graph: seq<Node>) returns (blocked: seq<Node>)
      ensures blocked == BlockedTasks(graph)
    {
      blocked := [];
      for i := 0 to |graph|
        invariant blocked == BlockedTasks(graph[..i])
      {
        assert graph[..i + 1][..i] == graph[..i];
        if graph[i].Blocked() {
          blocked := blocked + [graph[i]];
        }
      }
      assert graph[..|graph|] == graph;
    }
  }

  // ---------------------------------------------------------------- what is dispatched

  /** No other unblocked task carries the id of the primary one. */
  ghost predicate PrimaryIdUnique(graph: seq<Node>)
    requires graph != []
  {
    var k := PrimaryAt(graph);
    forall i | 0 <= i < |graph| && i != k && !graph[i].Blocked() :: graph[i].id != graph[k].id
  }

  /** Unblocked tasks that share the primary's id without being it. */
  function Dropped(graph: seq<Node>, primary: int): nat {
    if graph == [] then 0
    else Dropped(graph[..|graph| - 1], primary)
         + if graph[|graph| - 1].id == primary && !graph[|graph| - 1].Blocked() then 1 else 0
  }

  lemma {:induction false} SecondariesAndDropped(graph: seq<Node>, primary: int)
    ensures |Secondaries(graph, primary)| + Dropped(graph, primary) == |UnblockedTasks(graph)|
  {
    if graph != [] {
      SecondariesAndDropped(graph[..|graph| - 1], primary);
    }
  }

  lemma {:induction false} DroppedNone(graph: seq<Node>, primary: int)
    ensures Dropped(graph, primary) == 0 <==> forall n <- graph :: n.id == primary ==> n.Blocked()
    ensures Dropped(graph, primary) == 0 ==> Secondaries(graph, primary) == UnblockedTasks(graph)
  {
    if graph != [] {
      var n := |graph| - 1;
      DroppedNone(graph[..n], primary);
      assert graph == graph[..n] + [graph[n]];
    }
  }

  lemma {:induction false} SecondariesSplit(a: seq<Node>, b: seq<Node>, primary: int)
    ensures Secondaries(a + b, primary) == Secondaries(a, primary) + Secondaries(b, primary)
    decreases |b|
  {
    if b == [] {
      assert a + b == a;
    } else {
      SecondariesSplit(a, b[..|b| - 1], primary);
      assert (a + b)[..|a + b| - 1] == a + b[..|b| - 1];
    }
  }

  lemma {:induction false} UnblockedSplit(a: seq<Node>, b: seq<Node>)
    ensures UnblockedTasks(a + b) == UnblockedTasks(a) + UnblockedTasks(b)
    decreases |b|
  {
    if b == [] {
      assert a + b == a;
    } else {
      UnblockedSplit(a, b[..|b| - 1]);
      assert (a + b)[..|a + b| - 1] == a + b[..|b| - 1];
    }
  }

  lemma {:induction false} OnlyBlocked(graph: seq<Node>)
    requires AllBlocked(graph)
    ensures UnblockedTasks(graph) == [] && BlockedTasks(graph) == graph
  {
    if graph != [] {
      var n := |graph| - 1;
      OnlyBlocked(graph[..n]);
      assert graph == graph[..n] + [graph[n]];
    }
  }

  lemma OneTask(n: Node)
    ensures UnblockedTasks([n]) == if n.Blocked() then [] else [n]
    ensures Secondaries([n], n.id) == []
  {
    assert [n][..0] == [];
  }

  lemma SplitsAround(front: seq<Node>, primary: Node, rest: seq<Node>)
    requires AllBlocked(front) && !primary.Blocked()
    ensures UnblockedTasks(front + ([primary] + rest)) == [primary] + UnblockedTasks(rest)
    ensures Secondaries(front + ([primary] + rest), primary.id) == Secondaries(rest, primary.id)
  {
    hide UnblockedTasks, Secondaries;
    UnblockedSplit(front, [primary] + rest);
    UnblockedSplit([primary], rest);
    SecondariesSplit(front, [primary] + rest, primary.id);
    SecondariesSplit([primary], rest, primary.id);
    OneTask(primary);
    OnlyBlocked(front);
    SecondariesAndDropped(front, primary.id);
  }

  /** The primary task is the first unblocked one, and the tasks after it are treated like any list. */
  lemma PrimarySplits(graph: seq<Node>)
    requires graph != [] && !AllBlocked(graph)
    ensures var k := PrimaryAt(graph);
      && UnblockedTasks(graph) == [graph[k]] + UnblockedTasks(graph[k + 1..])
      && Secondaries(graph, graph[k].id) == Secondaries(graph[k + 1..], graph[k].id)
  {
    hide UnblockedTasks, Secondaries, AllBlocked, PrimaryAt;
    var k := PrimaryAt(graph);
    FrontIsBlocked(graph);
    SplitsAround(graph[..k], graph[k], graph[k + 1..]);
    AroundIndex(graph, k);
  }

  lemma FrontIsBlocked(graph: seq<Node>)
    requires graph != []
    ensures AllBlocked(graph[..PrimaryAt(graph)])
  {
    hide PrimaryAt;
  }

  lemma AroundIndex<T>(s: seq<T>, k: nat)
    requires k < |s|
    ensures s == s[..k] + ([s[k]] + s[k + 1..])
  {}

  lemma UniqueMeansNoneDropped(graph: seq<Node>)
    requires graph != [] && !AllBlocked(graph)
    ensures var k := PrimaryAt(graph);
      PrimaryIdUnique(graph) <==> Dropped(graph[k + 1..], graph[k].id) == 0
  {
    hide Dropped, AllBlocked, PrimaryAt, Secondaries, UnblockedTasks;
    var k := PrimaryAt(graph);
    var rest := graph[k + 1..];
    DroppedNone(rest, graph[k].id);
    if PrimaryIdUnique(graph) {
      forall n <- rest | n.id == graph[k].id ensures n.Blocked() {
        var j :| 0 <= j < |rest| && rest[j] == n;
        assert graph[k + 1 + j] == n;
      }
    }
    if Dropped(rest, graph[k].id) == 0 {
      forall i | 0 <= i < |graph| && i != k && !graph[i].Blocked() ensures graph[i].id != graph[k].id {
        assert i > k;
        assert graph[i] == rest[i - k - 1];
        assert graph[i] in rest;
      }
    }
  }

  /**
   The unblocked tasks are each dispatched exactly once, in list order with the primary one first, if and
   only if there is one and no other unblocked task carries the primary one's id.
   */
  lemma DispatchedIsUnblocked(graph: seq<Node>)
    requires graph != []
    ensures Dispatched(graph) == UnblockedTasks(graph) <==> !AllBlocked(graph) && PrimaryIdUnique(graph)
  {
    hide Dropped, UnblockedTasks, Secondaries, PrimaryIdUnique, PrimaryAt, AllBlocked;
    if AllBlocked(graph) {
      OnlyBlocked(graph);
    } else if PrimaryIdUnique(graph) {
      var k := PrimaryAt(graph);
      PrimarySplits(graph);
      UniqueMeansNoneDropped(graph);
      DroppedNone(graph[k + 1..], graph[k].id);
    } else {
      SomeLost(graph);
    }
  }

  lemma {:induction false} BlockedOrNot(graph: seq<Node>)
    ensures multiset(graph) == multiset(UnblockedTasks(graph)) + multiset(BlockedTasks(graph))
  {
    if graph != [] {
      var n := |graph| - 1;
      BlockedOrNot(graph[..n]);
      assert graph == graph[..n] + [graph[n]];
    }
  }

  /** No task is lost and none is both dispatched and deferred, under exactly the same condition. */
  lemma EveryTaskOnce(graph: seq<Node>)
    requires graph != []
    ensures multiset(graph) == multiset(Dispatched(graph)) + multiset(BlockedTasks(graph))
            <==> !AllBlocked(graph) && PrimaryIdUnique(graph)
  {
    hide PrimaryIdUnique, UnblockedTasks, Dispatched, BlockedTasks;
    DispatchedIsUnblocked(graph);
    BlockedOrNot(graph);
    if AllBlocked(graph) {
      OnlyBlocked(graph);
      FirstDispatchedAnyway(graph);
    } else if !PrimaryIdUnique(graph) {
      SomeLost(graph);
    }
    assert |multiset(graph)| == |graph|;
  }

  lemma SomeLost(graph: seq<Node>)
    requires graph != [] && !AllBlocked(graph) && !PrimaryIdUnique(graph)
    ensures |Dispatched(graph)| < |UnblockedTasks(graph)|
  {
    hide Dropped, UnblockedTasks, Secondaries, PrimaryIdUnique, PrimaryAt, AllBlocked;
    var k := PrimaryAt(graph);
    PrimarySplits(graph);
    UniqueMeansNoneDropped(graph);
    SecondariesAndDropped(graph[k + 1..], graph[k].id);
  }

  /** The inspection sees the primary task only: what a walk runs is approved iff the other tasks it runs are. */
  lemma OnlyPrimaryIsInspected(graph: seq<Node>, gate: Gate)
    requires graph != [] && !gate.greets(graph[PrimaryAt(graph)]) && gate.approves(graph[PrimaryAt(graph)])
    ensures (forall n <- Dispatched(graph) :: gate.approves(n))
            <==> forall n <- UnblockedTasks(graph) :: n.id != graph[PrimaryAt(graph)].id ==> gate.approves(n)
  {
    SecondariesAre(graph, graph[PrimaryAt(graph)].id);
  }

  lemma {:induction false} SecondariesAre(graph: seq<Node>, primary: int)
    ensures forall n :: n in Secondaries(graph, primary) <==> n in UnblockedTasks(graph) && n.id != primary
  {
    if graph != [] {
      SecondariesAre(graph[..|graph| - 1], primary);
    }
  }

  /** With every task blocked, the first is dispatched although all of them are deferred. */
  lemma FirstDispatchedAnyway(graph: seq<Node>)
    requires graph != [] && AllBlocked(graph)
    ensures Dispatched(graph) == [graph[0]] && BlockedTasks(graph) == graph
  {
    OnlyBlocked(graph);
    SecondariesAndDropped(graph, graph[0].id);
  }

  lemma DistinctIdsSuffice(graph: seq<Node>)
    requires graph != [] && DistinctIds(graph) && !AllBlocked(graph)
    ensures Dispatched(graph) == UnblockedTasks(graph)
    ensures multiset(graph) == multiset(Dispatched(graph)) + multiset(BlockedTasks(graph))
  {
    DispatchedIsUnblocked(graph);
    EveryTaskOnce(graph);
  }

  // ---------------------------------------------------------------- ids the interpreter makes up

  lemma {:induction false} PositionsBound(raws: seq<Raw>)
    requires forall r <- raws :: r.RawTask? ==> r.id.None?
    ensures forall n <- Validated(raws) :: 1 <= n.id <= |raws|
    ensures DistinctIds(Validated(raws))
  {
    if raws != [] {
      PositionsBound(raws[..|raws| - 1]);
    }
  }

  /** An answer that numbers no task itself gets distinct ids, so no task of it is lost. */
  lemma UnnumberedTasksAllHandled(raws: seq<Raw>, whole: Data, wholeIntent: string)
    requires forall r <- raws :: r.RawTask? ==> r.id.None?
    ensures var graph := Graph(raws, whole, wholeIntent);
      !AllBlocked(graph) ==>
        Dispatched(graph) == UnblockedTasks(graph)
        && multiset(graph) == multiset(Dispatched(graph)) + multiset(BlockedTasks(graph))
  {
    var graph := Graph(raws, whole, wholeIntent);
    PositionsBound(raws);
    if !AllBlocked(graph) {
      DistinctIdsSuffice(graph);
    }
  }

  /** A made-up id can collide with a given one: the second task is then neither run nor deferred. */
  lemma MadeUpIdCollides(data: Data)
    ensures var graph := Graph([RawTask(Some(2), "search", [], data), RawTask(None, "weather", [], data)], data, "");
      && UnblockedTasks(graph) == graph && |graph| == 2
      && |Dispatched(graph)| == 1 && BlockedTasks(graph) == []
  {
    var raws := [RawTask(Some(2), "search", [], data), RawTask(None, "weather", [], data)];
    var graph := [Node(2, "search", [], data), Node(2, "weather", [], data)];
    assert raws[..1] == [raws[0]] && raws[..1][..0] == [];
    assert Validated(raws[..1]) == [graph[0]];
    assert Validated(raws) == graph;
    assert graph[..1] == [graph[0]] && graph[..1][..0] == [];
    assert UnblockedTasks(graph[..1]) == [graph[0]];
    assert BlockedTasks(graph[..1]) == [];
    assert Secondaries(graph[..1], 2) == [];
  }
}
