/**
  The workflow graph: the configuration document, the graph the builder makes
  of it (`WorkflowEngine._build_workflow`), connection gating
  (`_should_follow_connection`) and the depth-first traversal with its
  per-branch cycle guard (`WorkflowEngine.execute` and `_execute_node`), all as
  functions. The engine class in module Engine runs the same steps in place and
  is proved equal to them.
 */
module Workflow {
  import opened Values
  import opened Conditions
  import opened Nodes

  /** A node descriptor of the configuration document. */
  datatype NodeDecl = NodeDecl(
    id: string,
    nodeType: Value,
    logic: Option<Value>,
    conditions: seq<ConditionDecl>,
    actionType: Value,
    settings: ActionSettings)

  /** A connection descriptor; an absent `condition` reads as `Null`. */
  datatype ConnectionDecl = ConnectionDecl(source: string, target: string, condition: Value)

  datatype Config = Config(nodes: seq<NodeDecl>, connections: seq<ConnectionDecl>)

  /** An outgoing edge of a node: `{'target': ..., 'condition': ...}`. */
  datatype Connection = Connection(target: string, condition: Value)

  datatype Node = Node(kind: NodeKind, connections: seq<Connection>)

  /**
    The node map, with its keys in the order Python's dict iterates them:
    the order in which each id was first inserted.
   */
  datatype Graph = Graph(nodes: map<string, Node>, order: seq<string>)

  /** `order` lists every key of `nodes` exactly once. */
  ghost predicate WellOrdered(g: Graph) {
    && (forall i, j :: 0 <= i < j < |g.order| ==> g.order[i] != g.order[j])
    && (forall id :: id in g.nodes <==> id in g.order)
  }

  /** The node a descriptor builds, or `None` for an unknown `type`. */
  function KindOf(d: NodeDecl): Option<NodeKind> {
    if d.nodeType == Str("trigger") then Some(Trigger)
    else if d.nodeType == Str("filter") then Some(Filter(d.logic, d.conditions))
    else if d.nodeType == Str("action") then Some(Action(d.actionType, d.settings))
    else None
  }

  /** `self.nodes[node_id] = node` for one descriptor, skipping an unknown type. */
  function AddNode(g: Graph, d: NodeDecl): Graph {
    match KindOf(d)
    case None => g
    case Some(kind) =>
      Graph(g.nodes[d.id := Node(kind, [])], if d.id in g.nodes then g.order else g.order + [d.id])
  }

  /** The first loop of the builder, over the node descriptors. */
  function AddNodes(g: Graph, decls: seq<NodeDecl>): Graph
    decreases |decls|
  {
    if decls == [] then g else AddNode(AddNodes(g, decls[..|decls| - 1]), decls[|decls| - 1])
  }

  /** `self.nodes[source].add_connection(target, condition)` when the source was built. */
  function Attach(g: Graph, c: ConnectionDecl): Graph {
    if c.source in g.nodes then
      var n := g.nodes[c.source];
      g.(nodes := g.nodes[c.source := n.(connections := n.connections + [Connection(c.target, c.condition)])])
    else g
  }

  /** The second loop of the builder, over the connection descriptors. */
  function AttachAll(g: Graph, conns: seq<ConnectionDecl>): Graph
    decreases |conns|
  {
    if conns == [] then g else Attach(AttachAll(g, conns[..|conns| - 1]), conns[|conns| - 1])
  }

  const EmptyGraph := Graph(map[], [])

  /** `_build_workflow`: every node first, then every connection. */
  function Build(config: Config): Graph {
    AttachAll(AddNodes(EmptyGraph, config.nodes), config.connections)
  }

  /** The connections among `conns` whose source is `id`, in configuration order. */
  function EdgesFrom(conns: seq<ConnectionDecl>, id: string): seq<Connection>
    decreases |conns|
  {
    if conns == [] then []
    else if conns[0].source == id then [Connection(conns[0].target, conns[0].condition)] + EdgesFrom(conns[1..], id)
    else EdgesFrom(conns[1..], id)
  }

  /** Some descriptor at or after `from` has this id and a known type. */
  ghost predicate DeclaredAfter(decls: seq<NodeDecl>, id: string, from: nat) {
    exists j :: from <= j < |decls| && decls[j].id == id && KindOf(decls[j]).Some?
  }

  /** Descriptor `j` has this id and a known type. */
  ghost predicate KnownAt(decls: seq<NodeDecl>, id: string, j: int) {
    0 <= j < |decls| && decls[j].id == id && KindOf(decls[j]).Some?
  }

  /** The position of the first descriptor at or after `from` with this id and a known type. */
  function FirstKnownFrom(decls: seq<NodeDecl>, id: string, from: nat): (j: nat)
    requires DeclaredAfter(decls, id, from)
    ensures from <= j && KnownAt(decls, id, j)
    ensures forall k :: from <= k < j ==> !KnownAt(decls, id, k)
    decreases |decls| - from
  {
    if decls[from].id == id && KindOf(decls[from]).Some? then from
    else
      var w :| from <= w < |decls| && decls[w].id == id && KindOf(decls[w]).Some?;
      assert w != from;
      FirstKnownFrom(decls, id, from + 1)
  }

  /** The position of the first descriptor that puts `id` into the node map. */
  function FirstKnown(decls: seq<NodeDecl>, id: string): nat
    requires DeclaredAfter(decls, id, 0)
  {
    FirstKnownFrom(decls, id, 0)
  }

  /**
    `order` is first-insertion order: every id in it was declared, and ids
    appear in the order of their first known-type descriptor.
   */
  ghost predicate InsertionOrdered(decls: seq<NodeDecl>, order: seq<string>) {
    && (forall id :: id in order ==> DeclaredAfter(decls, id, 0))
    && (forall i, j :: 0 <= i < j < |order| ==> FirstKnown(decls, order[i]) < FirstKnown(decls, order[j]))
  }

  /** The first known-type descriptor of an id is the least position that has it. */
  lemma FirstKnownIs(decls: seq<NodeDecl>, id: string, j: nat)
    requires KnownAt(decls, id, j) && forall k :: 0 <= k < j ==> !KnownAt(decls, id, k)
    ensures DeclaredAfter(decls, id, 0) && FirstKnown(decls, id) == j
  {
    assert KnownAt(decls, id, j);
  }

  /** Appending a descriptor does not move the first descriptor of an id already declared. */
  lemma FirstKnownSnoc(init: seq<NodeDecl>, last: NodeDecl, id: string)
    requires DeclaredAfter(init, id, 0)
    ensures DeclaredAfter(init + [last], id, 0)
    ensures FirstKnown(init + [last], id) == FirstKnown(init, id)
  {
    var decls := init + [last];
    var j := FirstKnown(init, id);
    assert KnownAt(decls, id, j) by { assert decls[j] == init[j]; }
    forall k | 0 <= k < j ensures !KnownAt(decls, id, k) {
      assert decls[k] == init[k];
      assert !KnownAt(init, id, k);
    }
    FirstKnownIs(decls, id, j);
  }

  /** A descriptor that introduces a new id is that id's first. */
  lemma FirstKnownNew(init: seq<NodeDecl>, last: NodeDecl)
    requires KindOf(last).Some? && !DeclaredAfter(init, last.id, 0)
    ensures DeclaredAfter(init + [last], last.id, 0)
    ensures FirstKnown(init + [last], last.id) == |init|
  {
    var decls := init + [last];
    assert KnownAt(decls, last.id, |init|);
    forall k | 0 <= k < |init| ensures !KnownAt(decls, last.id, k) {
      assert decls[k] == init[k];
      assert !KnownAt(init, last.id, k);
    }
    FirstKnownIs(decls, last.id, |init|);
  }

  /**
    The node loop keeps Python's dict order: an id takes its position when it
    is first inserted, and re-declaring it later does not move it.
   */
  lemma {:induction false} AddNodesInsertionOrder(decls: seq<NodeDecl>)
    ensures InsertionOrdered(decls, AddNodes(EmptyGraph, decls).order)
    decreases |decls|
  {
    if decls != [] {
      var init := decls[..|decls| - 1];
      var last := decls[|decls| - 1];
      assert init + [last] == decls;
      AddNodesInsertionOrder(init);
      AddNodesWellOrdered(init);
      AddNodesDomain(init);
      var before := AddNodes(EmptyGraph, init).order;
      var after := AddNodes(EmptyGraph, decls).order;
      forall id | id in before ensures DeclaredAfter(decls, id, 0) && FirstKnown(decls, id) == FirstKnown(init, id) {
        FirstKnownSnoc(init, last, id);
      }
      if after != before {
        assert KindOf(last).Some? && last.id !in AddNodes(EmptyGraph, init).nodes;
        assert after == before + [last.id];
        FirstKnownNew(init, last);
        forall i | 0 <= i < |before| ensures FirstKnown(decls, after[i]) < FirstKnown(decls, last.id) {
          assert after[i] == before[i];
          assert before[i] in before;
        }
      } else {
        forall i, j | 0 <= i < j < |after|
          ensures FirstKnown(decls, after[i]) < FirstKnown(decls, after[j])
        {
          assert after[i] in before && after[j] in before;
        }
      }
    }
  }

  /** The node loop keeps the key order well formed: every key once, nothing else. */
  lemma {:induction false} AddNodesWellOrdered(decls: seq<NodeDecl>)
    ensures WellOrdered(AddNodes(EmptyGraph, decls))
    decreases |decls|
  {
    if decls != [] {
      AddNodesWellOrdered(decls[..|decls| - 1]);
    }
  }

  /** A key is in the node map exactly when some descriptor of a known type has that id. */
  lemma {:induction false} AddNodesDomain(decls: seq<NodeDecl>)
    ensures forall id :: id in AddNodes(EmptyGraph, decls).nodes <==> DeclaredAfter(decls, id, 0)
    decreases |decls|
  {
    if decls != [] {
      var init := decls[..|decls| - 1];
      var last := decls[|decls| - 1];
      AddNodesDomain(init);
      forall id ensures id in AddNodes(EmptyGraph, decls).nodes <==> DeclaredAfter(decls, id, 0) {
        if id == last.id && KindOf(last).Some? {
          assert decls[|decls| - 1] == last;
        } else {
          if DeclaredAfter(init, id, 0) {
            var j :| 0 <= j < |init| && init[j].id == id && KindOf(init[j]).Some?;
            assert decls[j] == init[j];
          }
          if DeclaredAfter(decls, id, 0) {
            var j :| 0 <= j < |decls| && decls[j].id == id && KindOf(decls[j]).Some?;
            assert j < |init|;
            assert init[j] == decls[j];
          }
        }
      }
    }
  }

  /**
    The node stored under an id is the one the LAST descriptor of a known type
    with that id builds, with no connections yet.
   */
  lemma {:induction false} AddNodesLastWins(decls: seq<NodeDecl>, i: nat)
    requires i < |decls| && KindOf(decls[i]).Some? && !DeclaredAfter(decls, decls[i].id, i + 1)
    ensures decls[i].id in AddNodes(EmptyGraph, decls).nodes
    ensures AddNodes(EmptyGraph, decls).nodes[decls[i].id] == Node(KindOf(decls[i]).value, [])
    decreases |decls|
  {
    var init := decls[..|decls| - 1];
    var last := decls[|decls| - 1];
    if i < |init| {
      assert decls[i] == init[i];
      assert !(KindOf(last).Some? && last.id == decls[i].id);
      assert !DeclaredAfter(init, init[i].id, i + 1);
      AddNodesLastWins(init, i);
    }
  }

  /**
    The connection loop leaves the node map's keys, the key order and every
    node's type alone, and gives each node exactly the connections whose
    source is its id, in configuration order; a connection whose source is not
    a built node is dropped, and targets are not checked.
   */
  lemma {:induction false} AttachAllSpec(g: Graph, conns: seq<ConnectionDecl>)
    ensures AttachAll(g, conns).order == g.order
    ensures AttachAll(g, conns).nodes.Keys == g.nodes.Keys
    ensures forall id :: id in g.nodes ==>
              AttachAll(g, conns).nodes[id] == g.nodes[id].(connections := g.nodes[id].connections + EdgesFrom(conns, id))
    decreases |conns|
  {
    if conns != [] {
      var init := conns[..|conns| - 1];
      var last := conns[|conns| - 1];
      AttachAllSpec(g, init);
      assert init + [last] == conns;
      var before := AttachAll(g, init);
      forall id | id in g.nodes
        ensures AttachAll(g, conns).nodes[id] ==
                  g.nodes[id].(connections := g.nodes[id].connections + EdgesFrom(conns, id))
      {
        EdgesFromSplit(init, [last], id);
        assert EdgesFrom([last], id) == if last.source == id then [Connection(last.target, last.condition)] else [];
        if last.source == id {
          assert before.nodes[id].connections + [Connection(last.target, last.condition)] ==
                 g.nodes[id].connections + EdgesFrom(init, id) + EdgesFrom([last], id);
        }
      }
    }
  }

  lemma {:induction false} EdgesFromSplit(a: seq<ConnectionDecl>, b: seq<ConnectionDecl>, id: string)
    ensures EdgesFrom(a + b, id) == EdgesFrom(a, id) + EdgesFrom(b, id)
    decreases |a|
  {
    if a == [] {
      assert a + b == b;
    } else {
      assert (a + b)[0] == a[0];
      assert (a + b)[1..] == a[1..] + b;
      EdgesFromSplit(a[1..], b, id);
    }
  }

  /**
    What the builder makes of a whole configuration: the nodes of known type
    (the last descriptor of an id wins), keyed in the order of each id's first
    descriptor, each with the connections the configuration declares from it,
    in order.
   */
  lemma BuildSpec(config: Config)
    ensures WellOrdered(Build(config))
    ensures InsertionOrdered(config.nodes, Build(config).order)
    ensures forall id :: id in Build(config).nodes <==> DeclaredAfter(config.nodes, id, 0)
    ensures forall i :: 0 <= i < |config.nodes| && KindOf(config.nodes[i]).Some? &&
                        !DeclaredAfter(config.nodes, config.nodes[i].id, i + 1) ==>
              config.nodes[i].id in Build(config).nodes &&
              Build(config).nodes[config.nodes[i].id] ==
                Node(KindOf(config.nodes[i]).value, EdgesFrom(config.connections, config.nodes[i].id))
  {
    var g := AddNodes(EmptyGraph, config.nodes);
    AddNodesWellOrdered(config.nodes);
    AddNodesInsertionOrder(config.nodes);
    AddNodesDomain(config.nodes);
    AttachAllSpec(g, config.connections);
    forall i | 0 <= i < |config.nodes| && KindOf(config.nodes[i]).Some? &&
               !DeclaredAfter(config.nodes, config.nodes[i].id, i + 1)
      ensures g.nodes[config.nodes[i].id] == Node(KindOf(config.nodes[i]).value, [])
    {
      AddNodesLastWins(config.nodes, i);
    }
  }

  /** `_should_follow_connection(data, condition)`. */
  predicate ShouldFollow(data: Record, condition: Value) {
    if !Truthy(condition) then true
    else if condition == Str("true") && Truthy(Get(data, "filter_passed")) then true
    else if condition == Str("false") && !Truthy(Get(data, "filter_passed")) then true
    else false
  }

  /**
    Gating: an absent or empty label is always followed; `"true"` is followed
    exactly when `filter_passed` is truthy and `"false"` exactly when it is
    falsy or absent, so exactly one of the two is eligible; any other label is
    never followed.
   */
  lemma GatingRules(data: Record, condition: Value)
    ensures !Truthy(condition) ==> ShouldFollow(data, condition)
    ensures ShouldFollow(data, Str("true")) <==> "filter_passed" in data && Truthy(data["filter_passed"])
    ensures ShouldFollow(data, Str("false")) <==> !("filter_passed" in data && Truthy(data["filter_passed"]))
    ensures ShouldFollow(data, Str("true")) != ShouldFollow(data, Str("false"))
    ensures Truthy(condition) && condition != Str("true") && condition != Str("false") ==> !ShouldFollow(data, condition)
  {
  }

  /** Marking `id` visited shrinks the measure of the traversal. */
  lemma VisitShrinks(ids: set<string>, visited: set<string>, id: string)
    requires id in ids && id !in visited
    ensures |ids - (visited + {id})| < |ids - visited|
  {
    assert ids - visited == (ids - (visited + {id})) + {id};
  }

  /**
    `_execute_node(node, data, visited)`: a node already on this branch returns
    the record untouched; otherwise the node is executed and its connections
    followed with the visited set extended by it. The measure is the number of
    node ids not yet visited on the branch, so the walk terminates on every
    graph, cyclic or not; every key no node owns keeps its value.
   */
  function RunNode(g: Graph, id: string, data: Record, visited: set<string>, b: Builtins): (r: Result<Record>)
    requires id in g.nodes
    ensures r.Ok? ==> Extends(data, r.value)
    decreases |g.nodes.Keys - visited|, 0
  {
    if id in visited then Ok(data)
    else
      VisitShrinks(g.nodes.Keys, visited, id);
      match Apply(g.nodes[id].kind, data, b)
      case Err(e) => Err(e)
      case Ok(result) => RunEdges(g, g.nodes[id].connections, result, visited + {id}, b)
  }

  /**
    The loop over a node's connections: each followed connection to a node in
    the map runs that node on the record so far, with its own copy of the
    visited set, and its result becomes the record for the next connection; a
    connection to a missing node is skipped.
   */
  function RunEdges(g: Graph, conns: seq<Connection>, data: Record, visited: set<string>, b: Builtins)
    : (r: Result<Record>)
    ensures r.Ok? ==> Extends(data, r.value)
    decreases |g.nodes.Keys - visited|, |conns|
  {
    if conns == [] then Ok(data)
    else if ShouldFollow(data, conns[0].condition) && conns[0].target in g.nodes then
      match RunNode(g, conns[0].target, data, visited, b)
      case Err(e) => Err(e)
      case Ok(result) => RunEdges(g, conns[1..], result, visited, b)
    else RunEdges(g, conns[1..], data, visited, b)
  }

  /** One node step: a node not yet visited runs, then follows its connections with itself marked visited. */
  lemma RunNodeStep(g: Graph, id: string, data: Record, visited: set<string>, b: Builtins, result: Record)
    requires id in g.nodes && id !in visited
    requires Apply(g.nodes[id].kind, data, b) == Ok(result)
    ensures RunNode(g, id, data, visited, b) == RunEdges(g, g.nodes[id].connections, result, visited + {id}, b)
  {
  }

  /** One step of the loop over a node's connections. */
  lemma EdgesStep(g: Graph, conns: seq<Connection>, i: nat, data: Record, visited: set<string>, b: Builtins)
    requires i < |conns|
    ensures RunEdges(g, conns[i..], data, visited, b) ==
              if ShouldFollow(data, conns[i].condition) && conns[i].target in g.nodes then
                match RunNode(g, conns[i].target, data, visited, b)
                case Err(e) => Err(e)
                case Ok(result) => RunEdges(g, conns[i + 1..], result, visited, b)
              else RunEdges(g, conns[i + 1..], data, visited, b)
  {
    assert conns[i..][0] == conns[i] && conns[i..][1..] == conns[i + 1..];
  }

  /** The first trigger in key order. */
  function FirstTrigger(nodes: map<string, Node>, ids: seq<string>): (t: Option<string>)
    requires forall id :: id in ids ==> id in nodes
    ensures t.Some? ==> t.value in ids && nodes[t.value].kind.Trigger?
    ensures t.None? <==> forall id :: id in ids ==> !nodes[id].kind.Trigger?
  {
    if ids == [] then None
    else if nodes[ids[0]].kind.Trigger? then Some(ids[0])
    else FirstTrigger(nodes, ids[1..])
  }

  /** The record `execute` returns when the graph has no trigger. */
  const NoTriggerResult: Record := map["action" := Str("accept"), "error" := Str("No trigger node")]

  /** `WorkflowEngine.execute(email_data)`. */
  function Run(g: Graph, email: Record, b: Builtins): Result<Record>
    requires WellOrdered(g)
  {
    match FirstTrigger(g.nodes, g.order)
    case None => Ok(NoTriggerResult)
    case Some(t) => RunNode(g, t, email, {}, b)
  }

  /** Reaching a node already visited on this branch returns the incoming record, without running it. */
  lemma RevisitReturnsInput(g: Graph, id: string, data: Record, visited: set<string>, b: Builtins)
    requires id in g.nodes && id in visited
    ensures RunNode(g, id, data, visited, b) == Ok(data)
  {
  }

  /** A followed connection to a node missing from the map leaves the record alone and the walk goes on. */
  lemma MissingTargetSkipped(g: Graph, conns: seq<Connection>, data: Record, visited: set<string>, b: Builtins)
    requires conns != [] && conns[0].target !in g.nodes
    ensures RunEdges(g, conns, data, visited, b) == RunEdges(g, conns[1..], data, visited, b)
  {
  }

  /**
    Sibling connections are processed in order with the record threaded
    through them: running `a + c` is running `a`, then `c` on its result;
    a fault stops the walk.
   */
  lemma {:induction false} EdgesThread(g: Graph, a: seq<Connection>, c: seq<Connection>, data: Record,
                                       visited: set<string>, b: Builtins)
    ensures RunEdges(g, a + c, data, visited, b) ==
              match RunEdges(g, a, data, visited, b)
              case Err(e) => Err(e)
              case Ok(mid) => RunEdges(g, c, mid, visited, b)
    decreases |a|
  {
    if a != [] {
      assert (a + c)[0] == a[0];
      assert (a + c)[1..] == a[1..] + c;
      if ShouldFollow(data, a[0].condition) && a[0].target in g.nodes {
        match RunNode(g, a[0].target, data, visited, b)
        case Err(e) =>
        case Ok(result) => EdgesThread(g, a[1..], c, result, visited, b);
      } else {
        EdgesThread(g, a[1..], c, data, visited, b);
      }
    } else {
      assert a + c == c;
    }
  }

  /**
    `execute` starts at the first trigger in key order; with no trigger at all
    it returns exactly `{action: 'accept', error: 'No trigger node'}` and runs
    no node.
   */
  lemma RunStartsAtFirstTrigger(g: Graph, email: Record, b: Builtins)
    requires WellOrdered(g)
    ensures (forall id :: id in g.nodes ==> !g.nodes[id].kind.Trigger?) ==> Run(g, email, b) == Ok(NoTriggerResult)
    ensures forall k :: 0 <= k < |g.order| && g.nodes[g.order[k]].kind.Trigger? &&
                        (forall j :: 0 <= j < k ==> !g.nodes[g.order[j]].kind.Trigger?) ==>
              Run(g, email, b) == RunNode(g, g.order[k], email, {}, b)
  {
    forall k | 0 <= k < |g.order| && g.nodes[g.order[k]].kind.Trigger? &&
               (forall j :: 0 <= j < k ==> !g.nodes[g.order[j]].kind.Trigger?)
      ensures FirstTrigger(g.nodes, g.order) == Some(g.order[k])
    {
      FirstTriggerAt(g.nodes, g.order, k);
    }
  }

  lemma {:induction false} FirstTriggerAt(nodes: map<string, Node>, ids: seq<string>, k: nat)
    requires forall id :: id in ids ==> id in nodes
    requires k < |ids| && nodes[ids[k]].kind.Trigger?
    requires forall j :: 0 <= j < k ==> !nodes[ids[j]].kind.Trigger?
    ensures FirstTrigger(nodes, ids) == Some(ids[k])
    decreases k
  {
    if k > 0 {
      assert forall id :: id in ids[1..] ==> id in ids;
      FirstTriggerAt(nodes, ids[1..], k - 1);
    }
  }

  /** Some descriptor of this id at or after `from` is its last of known type. */
  lemma {:induction false} LastKnownExists(decls: seq<NodeDecl>, id: string, from: nat)
    requires DeclaredAfter(decls, id, from)
    ensures exists i :: from <= i && KnownAt(decls, id, i) && !DeclaredAfter(decls, id, i + 1)
    decreases |decls| - from
  {
    var w := FirstKnownFrom(decls, id, from);
    if DeclaredAfter(decls, id, w + 1) {
      LastKnownExists(decls, id, w + 1);
    } else {
      assert KnownAt(decls, id, w) && !DeclaredAfter(decls, id, w + 1);
    }
  }

  /** The node built for `id` is a trigger: its last descriptor of known type says `trigger`. */
  ghost predicate DeclaredTrigger(decls: seq<NodeDecl>, id: string) {
    && DeclaredAfter(decls, id, 0)
    && exists i :: 0 <= i < |decls| && KnownAt(decls, id, i) && !DeclaredAfter(decls, id, i + 1) &&
                   KindOf(decls[i]) == Some(Trigger)
  }

  /** A node of the built graph is a trigger exactly when its id is a declared trigger. */
  lemma BuiltTrigger(config: Config, id: string)
    requires id in Build(config).nodes
    ensures Build(config).nodes[id].kind.Trigger? <==> DeclaredTrigger(config.nodes, id)
  {
    var decls := config.nodes;
    BuildSpec(config);
    LastKnownExists(decls, id, 0);
    var i :| 0 <= i && KnownAt(decls, id, i) && !DeclaredAfter(decls, id, i + 1);
    assert Build(config).nodes[id].kind == KindOf(decls[i]).value;
    if DeclaredTrigger(decls, id) {
      var i' :| 0 <= i' < |decls| && KnownAt(decls, id, i') && !DeclaredAfter(decls, id, i' + 1) &&
                KindOf(decls[i']) == Some(Trigger);
      assert i == i';
    }
  }

  /**
    Running a built workflow starts at the declared trigger whose id was
    inserted first: an id keeps the position of its first descriptor, while
    its node, and so whether it is a trigger, comes from its last one.
   */
  lemma BuildRunStartsAtFirstDeclaredTrigger(config: Config, email: Record, b: Builtins, t: string)
    requires DeclaredTrigger(config.nodes, t)
    requires forall u :: DeclaredTrigger(config.nodes, u) ==> FirstKnown(config.nodes, t) <= FirstKnown(config.nodes, u)
    ensures WellOrdered(Build(config)) && t in Build(config).nodes
    ensures Run(Build(config), email, b) == RunNode(Build(config), t, email, {}, b)
  {
    var g := Build(config);
    BuildSpec(config);
    assert t in g.nodes;
    BuiltTrigger(config, t);
    var k :| 0 <= k < |g.order| && g.order[k] == t;
    forall j | 0 <= j < k ensures !g.nodes[g.order[j]].kind.Trigger? {
      var u := g.order[j];
      assert u in g.nodes;
      BuiltTrigger(config, u);
    }
    RunStartsAtFirstTrigger(g, email, b);
  }

  /** A configuration with no declared trigger runs no node and returns the no-trigger record. */
  lemma BuildRunWithoutTrigger(config: Config, email: Record, b: Builtins)
    requires forall u :: !DeclaredTrigger(config.nodes, u)
    ensures WellOrdered(Build(config))
    ensures Run(Build(config), email, b) == Ok(NoTriggerResult)
  {
    BuildSpec(config);
    forall id | id in Build(config).nodes ensures !Build(config).nodes[id].kind.Trigger? {
      BuiltTrigger(config, id);
    }
    RunStartsAtFirstTrigger(Build(config), email, b);
  }
}
