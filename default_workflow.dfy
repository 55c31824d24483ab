/**
  The built-in default workflow (`EmailProcessor._create_default_config`): the
  graph the builder makes of it, and what running it does to an email.
 */
module DefaultWorkflow {
  import opened Values
  import opened Conditions
  import opened Nodes
  import opened Workflow

  const SpamConditions := [
    ConditionDecl(Str("subject"), Str("contains"), Str("[SPAM]")),
    ConditionDecl(Str("sender"), Str("contains"), Str("noreply@spam"))
  ]

  const RejectSettings := ActionSettings(Some(Str("Message identified as spam")), None, Null, None, None)

  /** The default configuration: trigger, an OR spam filter, reject on `true`, accept on `false`. */
  const DefaultConfig := Config(
    [ NodeDecl("trigger1", Str("trigger"), None, [], Null, NoSettings),
      NodeDecl("filter1", Str("filter"), Some(Str("OR")), SpamConditions, Null, NoSettings),
      NodeDecl("action1", Str("action"), None, [], Str("reject"), RejectSettings),
      NodeDecl("action2", Str("action"), None, [], Str("accept"), NoSettings) ],
    [ ConnectionDecl("trigger1", "filter1", Null),
      ConnectionDecl("filter1", "action1", Str("true")),
      ConnectionDecl("filter1", "action2", Str("false")) ])

  /** The graph the builder makes of the default configuration. */
  const DefaultGraph := Graph(
    map[
      "trigger1" := Node(Trigger, [Connection("filter1", Null)]),
      "filter1" := Node(Filter(Some(Str("OR")), SpamConditions),
                        [Connection("action1", Str("true")), Connection("action2", Str("false"))]),
      "action1" := Node(Action(Str("reject"), RejectSettings), []),
      "action2" := Node(Action(Str("accept"), NoSettings), [])],
    ["trigger1", "filter1", "action1", "action2"])

  /** The default graph after the node loop, before any connection is attached. */
  const NodesOnly := Graph(
    map[
      "trigger1" := Node(Trigger, []),
      "filter1" := Node(Filter(Some(Str("OR")), SpamConditions), []),
      "action1" := Node(Action(Str("reject"), RejectSettings), []),
      "action2" := Node(Action(Str("accept"), NoSettings), [])],
    ["trigger1", "filter1", "action1", "action2"])

  const AfterFirst := NodesOnly.(nodes := NodesOnly.nodes["trigger1" := Node(Trigger, [Connection("filter1", Null)])])
  const AfterSecond := AfterFirst.(nodes := AfterFirst.nodes["filter1" :=
    Node(Filter(Some(Str("OR")), SpamConditions), [Connection("action1", Str("true"))])])

  lemma AttachFirst()
    ensures Attach(NodesOnly, DefaultConfig.connections[0]) == AfterFirst
  {
    assert [] + [Connection("filter1", Null)] == [Connection("filter1", Null)];
  }

  lemma AttachSecond()
    ensures Attach(AfterFirst, DefaultConfig.connections[1]) == AfterSecond
  {
    DistinctIds();
    assert [] + [Connection("action1", Str("true"))] == [Connection("action1", Str("true"))];
  }

  lemma AttachThird()
    ensures Attach(AfterSecond, DefaultConfig.connections[2]) == DefaultGraph
  {
    DistinctIds();
    var e1, e2 := Connection("action1", Str("true")), Connection("action2", Str("false"));
    assert [e1] + [e2] == [e1, e2];
  }

  lemma DefaultNodes()
    ensures AddNodes(EmptyGraph, DefaultConfig.nodes) == NodesOnly
  {
    var d := DefaultConfig.nodes;
    assert d[..1][..0] == [];
    var g1 := Graph(map["trigger1" := Node(Trigger, [])], ["trigger1"]);
    assert AddNodes(EmptyGraph, d[..1]) == g1;
    assert d[..2][..1] == d[..1];
    var g2 := Graph(g1.nodes["filter1" := Node(Filter(Some(Str("OR")), SpamConditions), [])], g1.order + ["filter1"]);
    assert AddNodes(EmptyGraph, d[..2]) == g2;
    assert d[..3][..2] == d[..2];
    var g3 := Graph(g2.nodes["action1" := Node(Action(Str("reject"), RejectSettings), [])], g2.order + ["action1"]);
    assert AddNodes(EmptyGraph, d[..3]) == g3;
    assert d[..4][..3] == d[..3] && d[..4] == d;
  }

  /** One more connection descriptor: the prefix's graph with that connection attached. */
  lemma AttachStep(g: Graph, conns: seq<ConnectionDecl>, n: nat)
    requires 0 < n <= |conns|
    ensures AttachAll(g, conns[..n]) == Attach(AttachAll(g, conns[..n - 1]), conns[n - 1])
  {
    assert conns[..n][..n - 1] == conns[..n - 1];
  }

  /** The connection loop of the builder on the default configuration, one descriptor at a time. */
  lemma DefaultConnections()
    ensures AttachAll(NodesOnly, DefaultConfig.connections) == DefaultGraph
  {
    var c := DefaultConfig.connections;
    assert c[..0] == [] && c[..3] == c;
    AttachStep(NodesOnly, c, 1);
    AttachFirst();
    AttachStep(NodesOnly, c, 2);
    AttachSecond();
    AttachStep(NodesOnly, c, 3);
    AttachThird();
  }

  /** `_build_workflow` on the default configuration yields `DefaultGraph`, whose key order is well formed. */
  lemma BuildDefault()
    ensures Build(DefaultConfig) == DefaultGraph
    ensures WellOrdered(DefaultGraph)
  {
    DefaultNodes();
    DefaultConnections();
    AddNodesWellOrdered(DefaultConfig.nodes);
    AttachAllSpec(AddNodes(EmptyGraph, DefaultConfig.nodes), DefaultConfig.connections);
  }

  /** The four node ids of the default workflow are distinct. */
  lemma DistinctIds()
    ensures "trigger1" != "filter1" && "trigger1" != "action1" && "trigger1" != "action2"
    ensures "filter1" != "action1" && "filter1" != "action2" && "action1" != "action2"
  {
  }

  /** The comparison values of the default filter, lower-cased. */
  lemma LowerPatterns()
    ensures Lower("[SPAM]") == "[spam]"
    ensures Lower("noreply@spam") == "noreply@spam"
  {
    LowerEach("[SPAM]", "[spam]");
    LowerEach("noreply@spam", "noreply@spam");
  }

  /** The text the default filter reads for a key: `str(email.get(key, ''))`. */
  function Text(email: Record, key: string): string {
    if key in email then Show(email[key]) else ""
  }

  /** The default filter's verdict: `[spam]` in the subject or `noreply@spam` in the sender, ignoring case. */
  predicate IsSpam(email: Record) {
    Contains(Lower(Text(email, "subject")), "[spam]") || Contains(Lower(Text(email, "from")), "noreply@spam")
  }

  /** The checks of a filter with two conditions whose field names do not fault. */
  lemma TwoChecks(data: Record, conds: seq<ConditionDecl>, b: Builtins)
    requires |conds| == 2
    requires FieldValue(data, conds[0].field).Ok? && FieldValue(data, conds[1].field).Ok?
    ensures Checks(data, conds, b) == Ok([
      Check(conds[0].field, conds[0].operator, conds[0].value, Holds(data, conds[0], b)),
      Check(conds[1].field, conds[1].operator, conds[1].value, Holds(data, conds[1], b))])
  {
    var c0 := Check(conds[0].field, conds[0].operator, conds[0].value, Holds(data, conds[0], b));
    var c1 := Check(conds[1].field, conds[1].operator, conds[1].value, Holds(data, conds[1], b));
    assert conds[..1][..0] == [] && conds[..1][0] == conds[0];
    assert [] + [c0] == [c0];
    assert Checks(data, conds[..1], b) == Ok([c0]);
    assert conds[..2][..1] == conds[..1] && conds[..2] == conds;
    assert [c0] + [c1] == [c0, c1];
  }

  /** Under OR logic, two checks pass when either holds. */
  lemma EitherOfTwo(checks: seq<Check>)
    requires |checks| == 2
    ensures Passed(Some(Str("OR")), checks) == (checks[0].result || checks[1].result)
  {
    assert !IsAndLogic(Some(Str("OR")));
  }

  /** The default filter's field names: `subject` reads itself, `sender` reads `from`. */
  lemma DefaultFields(email: Record)
    ensures FieldValue(email, Str("subject")) == Ok(Text(email, "subject"))
    ensures FieldValue(email, Str("sender")) == Ok(Text(email, "from"))
  {
  }

  /** Each default condition holds exactly when its pattern occurs in the field, ignoring case. */
  lemma DefaultHolds(email: Record, b: Builtins)
    ensures FieldValue(email, SpamConditions[0].field).Ok? && FieldValue(email, SpamConditions[1].field).Ok?
    ensures Holds(email, SpamConditions[0], b) == Contains(Lower(Text(email, "subject")), "[spam]")
    ensures Holds(email, SpamConditions[1], b) == Contains(Lower(Text(email, "from")), "noreply@spam")
  {
    DefaultFields(email);
    LowerPatterns();
    EvaluateContains(Text(email, "subject"), "[SPAM]", b);
    EvaluateContains(Text(email, "from"), "noreply@spam", b);
  }

  /** The default filter never faults, and `filter_passed` is exactly the spam verdict. */
  lemma DefaultFilter(email: Record, b: Builtins)
    ensures ApplyFilter(email, Some(Str("OR")), SpamConditions, b).Ok?
    ensures ApplyFilter(email, Some(Str("OR")), SpamConditions, b).value["filter_passed"] == Bool(IsSpam(email))
  {
    DefaultHolds(email, b);
    TwoChecks(email, SpamConditions, b);
    EitherOfTwo(Checks(email, SpamConditions, b).value);
  }

  /** A string contains each of its prefixes. */
  lemma PrefixContained(s: string, p: string)
    requires p <= s
    ensures Contains(s, p)
  {
  }

  /** The nodes and connections of the default graph, read off one key at a time. */
  ghost predicate DefaultShape(g: Graph) {
    && g.order == ["trigger1", "filter1", "action1", "action2"]
    && g.nodes.Keys == {"trigger1", "filter1", "action1", "action2"}
    && g.nodes["trigger1"] == Node(Trigger, [Connection("filter1", Null)])
    && g.nodes["filter1"] == Node(Filter(Some(Str("OR")), SpamConditions),
                                  [Connection("action1", Str("true")), Connection("action2", Str("false"))])
    && g.nodes["action1"] == Node(Action(Str("reject"), RejectSettings), [])
    && g.nodes["action2"] == Node(Action(Str("accept"), NoSettings), [])
  }

  lemma DefaultGraphShape()
    ensures DefaultShape(DefaultGraph)
  {
  }

  /** An action node of the default graph runs its action and has no connections to follow. */
  lemma DefaultLeaf(g: Graph, id: string, data: Record, visited: set<string>, b: Builtins)
    requires DefaultShape(g)
    requires id == "action1" || id == "action2"
    requires id !in visited
    ensures var k := g.nodes[id].kind;
      RunNode(g, id, data, visited, b) == Ok(ApplyAction(data, k.actionType, k.settings))
  {
    RunNodeStep(g, id, data, visited, b, ApplyAction(data, g.nodes[id].kind.actionType, g.nodes[id].kind.settings));
  }

  /** With `filter_passed` true the `false` connection, the filter's last, is skipped. */
  lemma SkipFalseEdge(g: Graph, r: Record, seen: set<string>, b: Builtins)
    requires DefaultShape(g)
    requires "filter_passed" in r && r["filter_passed"] == Bool(true)
    ensures RunEdges(g, g.nodes["filter1"].connections[1..], r, seen, b) == Ok(r)
  {
    var conns := g.nodes["filter1"].connections;
    assert !ShouldFollow(r, Str("false"));
    EdgesStep(g, conns, 1, r, seen, b);
    assert conns[2..] == [];
  }

  /** A passing filter follows its `true` connection to the reject action and skips the `false` one. */
  lemma PassedFilterEdges(g: Graph, f: Record, b: Builtins)
    requires DefaultShape(g)
    requires "filter_passed" in f && f["filter_passed"] == Bool(true)
    ensures RunEdges(g, g.nodes["filter1"].connections, f, {"trigger1", "filter1"}, b) ==
              Ok(ApplyAction(f, Str("reject"), RejectSettings))
  {
    var seen: set<string> := {"trigger1", "filter1"};
    var conns := g.nodes["filter1"].connections;
    var rejected := ApplyAction(f, Str("reject"), RejectSettings);
    DistinctIds();
    EdgesStep(g, conns, 0, f, seen, b);
    assert conns[0..] == conns;
    assert ShouldFollow(f, Str("true"));
    DefaultLeaf(g, "action1", f, seen, b);
    KeyNames();
    SkipFalseEdge(g, rejected, seen, b);
  }

  /** A failing filter skips its `true` connection and follows the `false` one to the accept action. */
  lemma FailedFilterEdges(g: Graph, f: Record, b: Builtins)
    requires DefaultShape(g)
    requires "filter_passed" in f && f["filter_passed"] == Bool(false)
    ensures RunEdges(g, g.nodes["filter1"].connections, f, {"trigger1", "filter1"}, b) ==
              Ok(ApplyAction(f, Str("accept"), NoSettings))
  {
    var seen: set<string> := {"trigger1", "filter1"};
    var conns := g.nodes["filter1"].connections;
    DistinctIds();
    EdgesStep(g, conns, 0, f, seen, b);
    assert conns[0..] == conns && conns[2..] == [];
    assert !ShouldFollow(f, Str("true"));
    EdgesStep(g, conns, 1, f, seen, b);
    assert ShouldFollow(f, Str("false"));
    DefaultLeaf(g, "action2", f, seen, b);
  }

  /** The filter node runs its conditions, then follows its connections with `trigger1` and itself visited. */
  lemma FilterStep(g: Graph, data: Record, b: Builtins, f: Record)
    requires "filter1" in g.nodes && Apply(g.nodes["filter1"].kind, data, b) == Ok(f)
    ensures RunNode(g, "filter1", data, {"trigger1"}, b) ==
              RunEdges(g, g.nodes["filter1"].connections, f, {"trigger1", "filter1"}, b)
  {
    DistinctIds();
    RunNodeStep(g, "filter1", data, {"trigger1"}, b, f);
    VisitedAfterFilter();
  }

  lemma FilterApplies(g: Graph, data: Record, b: Builtins, f: Record)
    requires DefaultShape(g)
    requires ApplyFilter(data, Some(Str("OR")), SpamConditions, b) == Ok(f)
    ensures "filter1" in g.nodes && Apply(g.nodes["filter1"].kind, data, b) == Ok(f)
  {
  }

  lemma VisitedAfterFilter()
    ensures {"trigger1"} + {"filter1"} == {"trigger1", "filter1"}
  {
  }

  /** The filter node sends the record down exactly one branch: reject when it passed, accept otherwise. */
  lemma DefaultBranch(g: Graph, data: Record, b: Builtins, f: Record)
    requires DefaultShape(g)
    requires ApplyFilter(data, Some(Str("OR")), SpamConditions, b) == Ok(f)
    requires "filter_passed" in f && f["filter_passed"].Bool?
    ensures RunNode(g, "filter1", data, {"trigger1"}, b) ==
              Ok(if f["filter_passed"].b then ApplyAction(f, Str("reject"), RejectSettings)
                 else ApplyAction(f, Str("accept"), NoSettings))
  {
    FilterApplies(g, data, b, f);
    FilterStep(g, data, b, f);
    if f["filter_passed"].b {
      PassedFilterEdges(g, f, b);
    } else {
      FailedFilterEdges(g, f, b);
    }
  }

  /** The trigger passes the email to the filter unchanged; the filter's branch is the run's result. */
  lemma DefaultTrigger(g: Graph, email: Record, b: Builtins)
    requires DefaultShape(g)
    ensures RunNode(g, "trigger1", email, {}, b) == RunNode(g, "filter1", email, {"trigger1"}, b)
  {
    var conns := g.nodes["trigger1"].connections;
    DistinctIds();
    RunNodeStep(g, "trigger1", email, {}, b, email);
    assert {} + {"trigger1"} == {"trigger1"};
    EdgesStep(g, conns, 0, email, {"trigger1"}, b);
    assert conns[0..] == conns && conns[1..] == [];
  }

  /** A graph of the default shape is well ordered, and a run of it starts at `trigger1`. */
  lemma ShapeRun(g: Graph, email: Record, b: Builtins)
    requires DefaultShape(g)
    ensures WellOrdered(g)
    ensures Run(g, email, b) == RunNode(g, "trigger1", email, {}, b)
  {
    DistinctIds();
    assert g.nodes["trigger1"].kind.Trigger?;
    assert FirstTrigger(g.nodes, g.order) == Some("trigger1");
  }

  /** The verdict of any graph of the default shape. */
  lemma ShapeVerdict(g: Graph, email: Record, b: Builtins)
    requires DefaultShape(g)
    ensures WellOrdered(g)
    ensures var r := Run(g, email, b);
      && r.Ok? && "action" in r.value && "filter_passed" in r.value
      && r.value["filter_passed"] == Bool(IsSpam(email))
      && r.value["action"] == (if IsSpam(email) then Str("reject") else Str("accept"))
      && (IsSpam(email) ==> "reject_reason" in r.value && r.value["reject_reason"] == Str("Message identified as spam"))
      && (forall k :: k in email && k !in OwnedKeys ==> k in r.value && r.value[k] == email[k])
  {
    ShapeRun(g, email, b);
    DefaultFilter(email, b);
    var f := ApplyFilter(email, Some(Str("OR")), SpamConditions, b).value;
    DefaultBranch(g, email, b, f);
    DefaultTrigger(g, email, b);
    BranchRecord(f, IsSpam(email));
  }

  /** The record the chosen action returns: its verdict, the reason on a rejection, `filter_passed` kept. */
  lemma BranchRecord(f: Record, spam: bool)
    requires "filter_passed" in f && f["filter_passed"] == Bool(spam)
    ensures var out := if spam then ApplyAction(f, Str("reject"), RejectSettings) else ApplyAction(f, Str("accept"), NoSettings);
      && "action" in out && "filter_passed" in out
      && out["filter_passed"] == Bool(spam)
      && out["action"] == (if spam then Str("reject") else Str("accept"))
      && (spam ==> "reject_reason" in out && out["reject_reason"] == Str("Message identified as spam"))
  {
    KeyNames();
    if spam {
      assert ApplyAction(f, Str("reject"), RejectSettings) ==
               f["action" := Str("reject")]["reject_reason" := Str("Message identified as spam")];
    } else {
      AcceptSetsOnlyAction(f, NoSettings);
    }
  }

  /**
    Running the default workflow: it never faults, `filter_passed` records the
    spam verdict, spam is rejected with the workflow's own reason and anything
    else is accepted, and the email's other fields come back unchanged.
   */
  lemma DefaultVerdict(email: Record, b: Builtins)
    ensures var r := Run(DefaultGraph, email, b);
      && r.Ok? && "action" in r.value && "filter_passed" in r.value
      && r.value["filter_passed"] == Bool(IsSpam(email))
      && r.value["action"] == (if IsSpam(email) then Str("reject") else Str("accept"))
      && (IsSpam(email) ==> "reject_reason" in r.value && r.value["reject_reason"] == Str("Message identified as spam"))
      && (forall k :: k in email && k !in OwnedKeys ==> k in r.value && r.value[k] == email[k])
  {
    DefaultGraphShape();
    ShapeVerdict(DefaultGraph, email, b);
  }

  /** The keys the default workflow writes are distinct. */
  lemma KeyNames()
    ensures "filter_passed" != "action" && "filter_passed" != "reject_reason" && "action" != "reject_reason"
  {
  }

  /** The default workflow rejects a message whose subject carries the `[SPAM]` tag. */
  lemma DefaultRejectsTaggedSubject(email: Record, b: Builtins)
    requires "subject" in email && email["subject"] == Str("[SPAM] buy now")
    ensures var r := Run(DefaultGraph, email, b);
      r.Ok? && "action" in r.value && r.value["action"] == Str("reject")
  {
    DefaultVerdict(email, b);
    TaggedSubjectIsSpam(email);
  }

  lemma TaggedSubjectIsSpam(email: Record)
    requires "subject" in email && email["subject"] == Str("[SPAM] buy now")
    ensures IsSpam(email)
  {
    var subject := email["subject"].s;
    assert Text(email, "subject") == subject;
    assert subject[..6] == "[SPAM]";
    LowerSlice(subject, 0, 6);
    LowerPatterns();
    PrefixContained(Lower(subject), "[spam]");
  }

  /** The default workflow accepts an ordinary message. */
  lemma DefaultAcceptsOrdinaryMail(email: Record, b: Builtins)
    requires "subject" in email && email["subject"] == Str("hello")
    requires "from" in email && email["from"] == Str("a@b.com")
    ensures var r := Run(DefaultGraph, email, b);
      r.Ok? && "action" in r.value && r.value["action"] == Str("accept")
  {
    DefaultVerdict(email, b);
  }
}
