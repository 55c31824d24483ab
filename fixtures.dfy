/**
  A diamond-shaped workflow: the trigger `start` leads to `left` (accept) and
  `right` (reject), and both lead to `join` (tag). Each branch carries its own
  copy of the visited set, so `join` runs once per branch and has the last word.
 */
module Fixtures {
  import opened Values
  import opened Conditions
  import opened Nodes
  import opened Workflow

  const DiamondGraph := Graph(
    map[
      "start" := Node(Trigger, [Connection("left", Null), Connection("right", Null)]),
      "left" := Node(Action(Str("accept"), NoSettings), [Connection("join", Null)]),
      "right" := Node(Action(Str("reject"), NoSettings), [Connection("join", Null)]),
      "join" := Node(Action(Str("tag"), NoSettings), [])],
    ["start", "left", "right", "join"])

  ghost predicate DiamondShape(g: Graph) {
    && g.order == ["start", "left", "right", "join"]
    && g.nodes.Keys == {"start", "left", "right", "join"}
    && g.nodes["start"] == Node(Trigger, [Connection("left", Null), Connection("right", Null)])
    && g.nodes["left"] == Node(Action(Str("accept"), NoSettings), [Connection("join", Null)])
    && g.nodes["right"] == Node(Action(Str("reject"), NoSettings), [Connection("join", Null)])
    && g.nodes["join"] == Node(Action(Str("tag"), NoSettings), [])
  }

  lemma DiamondGraphShape()
    ensures DiamondShape(DiamondGraph)
  {
  }

  /** The four node ids of the diamond are distinct. */
  lemma DiamondIds()
    ensures "start" != "left" && "start" != "right" && "start" != "join"
    ensures "left" != "right" && "left" != "join" && "right" != "join"
  {
  }

  /** `join` tags the record and stops. */
  lemma JoinStep(g: Graph, data: Record, visited: set<string>, b: Builtins)
    requires DiamondShape(g) && "join" !in visited
    ensures RunNode(g, "join", data, visited, b) == Ok(ApplyAction(data, Str("tag"), NoSettings))
  {
    RunNodeStep(g, "join", data, visited, b, ApplyAction(data, Str("tag"), NoSettings));
  }

  /** An arm runs its own action, then `join`, which it has not visited on its branch. */
  lemma ArmStep(g: Graph, id: string, data: Record, b: Builtins)
    requires DiamondShape(g) && (id == "left" || id == "right")
    ensures var own := ApplyAction(data, g.nodes[id].kind.actionType, NoSettings);
      RunNode(g, id, data, {"start"}, b) == Ok(ApplyAction(own, Str("tag"), NoSettings))
  {
    DiamondIds();
    var own := ApplyAction(data, g.nodes[id].kind.actionType, NoSettings);
    var seen := {"start"} + {id};
    RunNodeStep(g, id, data, {"start"}, b, own);
    var conns := g.nodes[id].connections;
    EdgesStep(g, conns, 0, own, seen, b);
    assert conns[0..] == conns && conns[1..] == [];
    JoinStep(g, own, seen, b);
  }

  /** The diamond's key order is well formed. */
  lemma DiamondWellOrdered(g: Graph)
    requires DiamondShape(g)
    ensures WellOrdered(g)
  {
    DiamondIds();
  }

  /** A run of the diamond starts at `start` and follows its two connections with `start` visited. */
  lemma DiamondStart(g: Graph, email: Record, b: Builtins)
    requires DiamondShape(g)
    requires WellOrdered(g)
    ensures Run(g, email, b) == RunEdges(g, g.nodes["start"].connections, email, {"start"}, b)
  {
    assert FirstTrigger(g.nodes, g.order) == Some("start");
    RunNodeStep(g, "start", email, {}, b, email);
    assert {} + {"start"} == {"start"};
  }

  /** The two arms run in order, each ending in `join`. */
  lemma DiamondArms(g: Graph, email: Record, b: Builtins)
    requires DiamondShape(g)
    ensures RunEdges(g, g.nodes["start"].connections, email, {"start"}, b) ==
              Ok(ApplyAction(ApplyAction(ApplyAction(ApplyAction(
                email, Str("accept"), NoSettings), Str("tag"), NoSettings), Str("reject"), NoSettings), Str("tag"), NoSettings))
  {
    var conns := g.nodes["start"].connections;
    var afterLeft := ApplyAction(ApplyAction(email, Str("accept"), NoSettings), Str("tag"), NoSettings);
    ArmStep(g, "left", email, b);
    EdgesStep(g, conns, 0, email, {"start"}, b);
    ArmStep(g, "right", afterLeft, b);
    EdgesStep(g, conns, 1, afterLeft, {"start"}, b);
    assert conns[0..] == conns && conns[2..] == [];
  }

  /** The trace of the diamond: accept, tag, reject, tag. */
  lemma DiamondTrace(g: Graph, email: Record, b: Builtins)
    requires DiamondShape(g)
    requires WellOrdered(g)
    ensures Run(g, email, b) == Ok(ApplyAction(ApplyAction(ApplyAction(ApplyAction(
              email, Str("accept"), NoSettings), Str("tag"), NoSettings), Str("reject"), NoSettings), Str("tag"), NoSettings))
  {
    DiamondStart(g, email, b);
    DiamondArms(g, email, b);
  }

  /**
    The diamond: `left` accepts and `join` tags; then `right` rejects and
    `join`, unvisited on that branch, tags again. The final verdict is `tag`
    and the rejection reason stays in the record.
   */
  lemma DiamondRerunsSharedNode(g: Graph, email: Record, b: Builtins)
    requires DiamondShape(g)
    ensures WellOrdered(g)
    ensures var r := Run(g, email, b);
      && r.Ok? && "action" in r.value && "reject_reason" in r.value
      && r.value["action"] == Str("tag")
      && r.value["reject_reason"] == Str("Message rejected by filter")
  {
    DiamondWellOrdered(g);
    DiamondTrace(g, email, b);
    RejectThenTag(ApplyAction(ApplyAction(email, Str("accept"), NoSettings), Str("tag"), NoSettings));
  }

  /** Tagging after a rejection overrides the verdict and keeps the reason. */
  lemma RejectThenTag(data: Record)
    ensures var t := ApplyAction(ApplyAction(data, Str("reject"), NoSettings), Str("tag"), NoSettings);
      && "action" in t && t["action"] == Str("tag")
      && "reject_reason" in t && t["reject_reason"] == Str("Message rejected by filter")
  {
    ActionPayloadDefaults(data, NoSettings);
    assert "reject_reason" != "action" && "reject_reason" !in PayloadKey(Str("tag"));
  }

  /** The concrete diamond graph behaves so. */
  lemma DiamondExample(email: Record, b: Builtins)
    ensures WellOrdered(DiamondGraph)
    ensures var r := Run(DiamondGraph, email, b);
      r.Ok? && "action" in r.value && r.value["action"] == Str("tag") && "reject_reason" in r.value
  {
    DiamondGraphShape();
    DiamondRerunsSharedNode(DiamondGraph, email, b);
  }
}
