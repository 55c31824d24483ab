/**
  `WorkflowEngine`: the builder fills the node map and each node's connection
  list in place, and the traversal walks the graph with a loop over each
  node's connections, recursing with a copy of the visited set. Each method is
  proved equal to the functions of module Workflow, whose properties are
  proved there.
 */
module Engine {
  import opened Values
  import opened Conditions
  import opened Nodes
  import opened Workflow

  class WorkflowEngine {
    /** `self.nodes`: node id to node. */
    var nodes: map<string, Node>
    /** The order in which the dict `self.nodes` iterates its keys. */
    var order: seq<string>

    function Current(): Graph
      reads this
    {
      Graph(nodes, order)
    }

    ghost predicate Valid()
      reads this
    {
      WellOrdered(Current())
    }

    /** `__init__` and `_build_workflow`: the node loop, then the connection loop. */
    constructor (config: Config)
      ensures Current() == Build(config)
      ensures Valid()
    {
      nodes := map[];
      order := [];
      new;
      for i := 0 to |config.nodes|
        invariant Current() == AddNodes(EmptyGraph, config.nodes[..i])
      {
        var d := config.nodes[i];
        assert config.nodes[..i + 1][..i] == config.nodes[..i];
        var kind: NodeKind;
        if d.nodeType == Str("trigger") {
          kind := Trigger;
        } else if d.nodeType == Str("filter") {
          kind := Filter(d.logic, d.conditions);
        } else if d.nodeType == Str("action") {
          kind := Action(d.actionType, d.settings);
        } else {
          continue;
        }
        if d.id !in nodes {
          order := order + [d.id];
        }
        nodes := nodes[d.id := Node(kind, [])];
      }
      assert config.nodes[..|config.nodes|] == config.nodes;
      ghost var built := Current();
      for i := 0 to |config.connections|
        invariant Current() == AttachAll(built, config.connections[..i])
      {
        var c := config.connections[i];
        assert config.connections[..i + 1][..i] == config.connections[..i];
        if c.source in nodes {
          var n := nodes[c.source];
          nodes := nodes[c.source := n.(connections := n.connections + [Connection(c.target, c.condition)])];
        }
      }
      assert config.connections[..|config.connections|] == config.connections;
      BuildSpec(config);
    }

    /**
      `execute(email_data)`: find the first trigger in key order, fall back to
      the no-trigger record, otherwise walk from the trigger with an empty
      visited set.
     */
    method Execute(email: Record, b: Builtins) returns (r: Result<Record>)
      requires Valid()
      ensures r == Run(Current(), email, b)
    {
      var trigger: Option<string> := None;
      var i := 0;
      while i < |order|
        invariant 0 <= i <= |order|
        invariant forall id :: id in order[i..] ==> id in nodes
        invariant FirstTrigger(nodes, order) == FirstTrigger(nodes, order[i..])
      {
        if nodes[order[i]].kind.Trigger? {
          trigger := Some(order[i]);
          break;
        }
        assert order[i..][1..] == order[i + 1..];
        i := i + 1;
      }
      if trigger.None? {
        return Ok(NoTriggerResult);
      }
      var current := email;
      var visited: set<string> := {};
      r := ExecuteNode(trigger.value, current, visited, b);
    }

    /**
      `_execute_node(node, data, visited)`: the cycle guard, the node's own
      step, then its connections in order, each followed one running the
      target on the record so far with a copy of the visited set.
     */
    method ExecuteNode(id: string, data: Record, visited: set<string>, b: Builtins) returns (r: Result<Record>)
      requires id in nodes
      ensures r == RunNode(Current(), id, data, visited, b)
      decreases |nodes.Keys - visited|
    {
      if id in visited {
        return Ok(data);
      }
      var seen := visited + {id};
      VisitShrinks(nodes.Keys, visited, id);
      ghost var g := Current();
      var node := nodes[id];
      var result := Nodes.Execute(node.kind, data, b);
      if result.Err? {
        return result;
      }
      var current := result.value;
      assert node.connections[0..] == node.connections;
      var i := 0;
      while i < |node.connections|
        invariant 0 <= i <= |node.connections|
        invariant RunEdges(g, node.connections[i..], current, seen, b) == RunNode(g, id, data, visited, b)
      {
        var connection := node.connections[i];
        EdgesStep(g, node.connections, i, current, seen, b);
        if ShouldFollow(current, connection.condition) && connection.target in nodes {
          var next := ExecuteNode(connection.target, current, seen, b);
          if next.Err? {
            return next;
          }
          current := next.value;
        }
        i := i + 1;
      }
      r := Ok(current);
    }
  }
}
