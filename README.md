# n8n-style mail workflow filter, modelled in Dafny

This project models the workflow interpreter of the mail filter `workflow-filter.py`. A
workflow is a configuration document made of nodes and connections. There are three node
types:

- a **trigger**, the entry point, passes the email record on unchanged;
- a **filter** evaluates a list of conditions against the record's fields and records
  `filter_results` and `filter_passed`;
- an **action** records a verdict (`reject`, `quarantine`, `forward`, `modify_headers`,
  `accept` or `tag`) together with its payload.

`WorkflowEngine` builds a node map from the configuration. It then walks the graph depth
first from the first trigger, following each connection whose `"true"`/`"false"` label
matches `filter_passed`. Each branch carries its own copy of the set of nodes it has
already visited, and that set breaks cycles.

Modules, one per file:

- `Values` (values.dfy): record values, Python truthiness, `str()` and `repr()` of values,
  and an ASCII `str.lower()`.
- `Conditions` (conditions.dfy): the field alias table and the condition operators
  (`_get_field_value`, `_evaluate_condition`).
- `Nodes` (nodes.dfy): what each node type does to the record.
  - `ExecuteFilter` is the filter's loop, proved equal to the function `ApplyFilter`.
- `Workflow` (workflow.dfy): the configuration and the graph the builder makes of it.
  - The builder, the gating rule and the traversal, all as functions.
  - Key order is kept as a sequence, because "the first trigger" means the first in
    Python dict order.
- `Engine` (engine.dfy): the class `WorkflowEngine`.
  - The constructor runs the builder's two loops in place.
  - `Execute` and `ExecuteNode` run the traversal.
  - Each is proved equal to the functions of `Workflow`.
- `DefaultWorkflow` (default_workflow.dfy): the built-in default configuration (the OR spam
  filter), the graph built from it, and its verdict on every email.
- `Fixtures` (fixtures.dfy): a diamond-shaped workflow that shows the per-branch visited set.
  A node reachable along two branches runs once per branch.

Three kinds of exception are modelled:

- A list or object used as a condition's field name raises `TypeError` in
  `_get_field_value`. That is outside the evaluator's `try`, so it escapes the engine. The
  model gives `Err(UnhashableField(field))` and propagates it through the traversal.
- A comparison value without `lower()` makes the operator `False`. This happens inside the
  evaluator's `try`.
- A regex that does not compile, or a value `float()` rejects, also makes the operator
  `False`.

`re.search` and `float()` are foreign code. They are passed in as the `Builtins` record.
That record is a parameter of every operation that evaluates conditions.

## Model

| member | source | states |
|---|---|---|
| Values.DigitsRoundTrip | target/n8n-mta/workflow-filter.py:111 | the decimal numeral `str()` prints for a non-negative integer reads back as that integer |
| Values.LowerIdempotent | target/n8n-mta/workflow-filter.py:117 | lower-casing an already lower-cased string changes nothing |
| Conditions.FieldValueLookup | target/n8n-mta/workflow-filter.py:100-111 | field lookup faults exactly on a list or object field name; `sender` reads `from`, `recipient` reads `to`, every other string name reads itself, a missing key reads as `""`, and a non-string scalar name finds nothing |
| Conditions.ContainsIff | target/n8n-mta/workflow-filter.py:118-119 | Python's substring test `t in s` holds exactly when some window of `s` equals `t` |
| Conditions.ContainsIsSubstring | target/n8n-mta/workflow-filter.py:118-119 | `contains` holds exactly when the lower-cased value occurs somewhere in the lower-cased field value |
| Conditions.StartsWithIsPrefix | target/n8n-mta/workflow-filter.py:120-121 | `starts_with` holds exactly when the field value's first characters equal the value, ignoring case |
| Conditions.EndsWithIsSuffix | target/n8n-mta/workflow-filter.py:122-123 | `ends_with` holds exactly when the field value's last characters equal the value, ignoring case |
| Conditions.NotEqualsNegatesEquals | target/n8n-mta/workflow-filter.py:115-139 | `not_equals` is the negation of `equals` for a string value; for a non-string value the exception makes both false |
| Conditions.NotContainsNegatesContains | target/n8n-mta/workflow-filter.py:115-139 | `not_contains` is the negation of `contains` for a string value; for a non-string value both are false |
| Conditions.UnknownOperatorIsFalse | target/n8n-mta/workflow-filter.py:134-136 | an operator outside the table never matches, whatever the built-ins answer |
| Conditions.EvaluateFaultsAreFalse | target/n8n-mta/workflow-filter.py:115-139 | an exception inside the evaluator gives false: a string operator with a non-string value, `regex` with a non-string or uncompilable pattern, `greater_than`/`less_than` when `float()` rejects either side |
| Conditions.FieldValue | target/n8n-mta/workflow-filter.py:100-111 | the field lookup, including the fault on an unhashable field name; its properties are stated by `FieldValueLookup` |
| Conditions.Evaluate | target/n8n-mta/workflow-filter.py:113-139 | the operator table; its properties are stated by the `Conditions` lemmas in the rows around this one |
| Conditions.StringOperatorsIgnoreCase | target/n8n-mta/workflow-filter.py:115-129 | the string operators give the same answer when either side is lower-cased first |
| Nodes.ExecuteFilter | target/n8n-mta/workflow-filter.py:69-98 | the filter loop returns exactly the record `ApplyFilter` describes, or the fault of the first condition whose field name faults |
| Nodes.ChecksOnePerCondition | target/n8n-mta/workflow-filter.py:74-89 | exactly one check per condition, in order, each recording the field, operator, value and whether the condition holds; the checks fault exactly when some field name faults, and then with the first such fault |
| Nodes.ChecksFaultPersists | target/n8n-mta/workflow-filter.py:74-89 | once a condition's field lookup raises, the loop stops with that fault whatever conditions follow |
| Nodes.FilterRecordsEveryCondition | target/n8n-mta/workflow-filter.py:71-96 | `filter_results` is replaced by one entry per condition; `filter_passed` is whether all conditions hold (logic absent or `AND`) or whether any holds (other logic); no conditions give `true` under AND and `false` otherwise |
| Nodes.FilterFaultsOnUnhashableField | target/n8n-mta/workflow-filter.py:69-111 | a filter faults exactly when one of its condition field names is a list or an object |
| Nodes.ApplyFilter | target/n8n-mta/workflow-filter.py:71-98 | a filter adds exactly `filter_results` and `filter_passed` and leaves every other key's value alone |
| Nodes.ApplyAction | target/n8n-mta/workflow-filter.py:148-181 | a recognised action sets `action` to its own name and adds exactly its payload key; an unrecognised one returns its input; every other key keeps its value |
| Nodes.ActionPayloadDefaults | target/n8n-mta/workflow-filter.py:152-165 | `reject_reason`, `quarantine_folder` and `forward_to` come from the configuration, defaulting to `'Message rejected by filter'` and `'/var/mail/quarantine'` |
| Nodes.EditPayloadDefaults | target/n8n-mta/workflow-filter.py:167-179 | `header_modifications` and `tags` come from the configuration, defaulting to `{}` and `[]` |
| Nodes.AcceptSetsOnlyAction | target/n8n-mta/workflow-filter.py:172-174 | `accept` changes the record only by setting `action` |
| Nodes.Apply | target/n8n-mta/workflow-filter.py:57-60 | a trigger returns its input unchanged; an action never faults; every node keeps every key and every value no node owns |
| Nodes.Execute | target/n8n-mta/workflow-filter.py:252 | running a node's own step gives what `Apply` describes for its type |
| Workflow.AddNodesWellOrdered | target/n8n-mta/workflow-filter.py:196-210 | the node loop lists every key of the node map exactly once in its key order |
| Workflow.AddNodesInsertionOrder | target/n8n-mta/workflow-filter.py:196-210 | the key order is Python's dict order: ids appear in the order of their first known-type descriptor, and re-declaring an id does not move it |
| Workflow.AddNodes | target/n8n-mta/workflow-filter.py:196-210 | the node loop; stated by `AddNodesWellOrdered`, `AddNodesInsertionOrder`, `AddNodesDomain` and `AddNodesLastWins` |
| Workflow.AttachAll | target/n8n-mta/workflow-filter.py:213-220 | the connection loop; stated by `AttachAllSpec` |
| Workflow.Build | target/n8n-mta/workflow-filter.py:192-220 | the whole builder; stated by `BuildSpec` |
| Workflow.ShouldFollow | target/n8n-mta/workflow-filter.py:269-279 | the gating rule; stated by `GatingRules` |
| Workflow.Run | target/n8n-mta/workflow-filter.py:222-241 | `execute`; stated by `RunStartsAtFirstTrigger` and the two `BuildRun` lemmas |
| Values.Truthy | target/n8n-mta/workflow-filter.py:271-276 | Python truthiness: `None`, `False`, zero, and empty strings, lists and dicts are falsy |
| Values.Show | target/n8n-mta/workflow-filter.py:111 | `str()`: a string is itself, any other value prints as its `repr` |
| Workflow.AddNodesDomain | target/n8n-mta/workflow-filter.py:196-210 | an id is a key exactly when some descriptor of a known type has it; nodes of unknown type are omitted |
| Workflow.AddNodesLastWins | target/n8n-mta/workflow-filter.py:196-210 | the node stored under an id is the one the last known-type descriptor with that id builds |
| Workflow.AttachAllSpec | target/n8n-mta/workflow-filter.py:213-220 | the connection loop keeps keys, key order and node types; each node gets exactly the connections declared from it, in order; a connection from an unbuilt source is dropped; targets are not checked |
| Workflow.BuildSpec | target/n8n-mta/workflow-filter.py:192-220 | the built graph has exactly the known-type ids, each once, in the order of each id's first descriptor; each node has its last declaration's type and all connections declared from it |
| Workflow.BuiltTrigger | target/n8n-mta/workflow-filter.py:196-210 | a built node is a trigger exactly when the last known-type descriptor of its id says `trigger` |
| Workflow.BuildRunStartsAtFirstDeclaredTrigger | target/n8n-mta/workflow-filter.py:192-241 | running a built workflow starts at the declared trigger whose id was inserted first; the position comes from the id's first descriptor, the trigger type from its last |
| Workflow.BuildRunWithoutTrigger | target/n8n-mta/workflow-filter.py:222-235 | a configuration without a declared trigger runs no node and returns exactly `{action: 'accept', error: 'No trigger node'}` |
| Workflow.GatingRules | target/n8n-mta/workflow-filter.py:269-279 | an absent or empty label is always followed; `"true"` exactly when `filter_passed` is truthy; `"false"` exactly when it is falsy or absent; never both; any other label is never followed |
| Workflow.RunNode | target/n8n-mta/workflow-filter.py:243-267 | the walk terminates on every graph, because the number of unvisited ids drops at every node; the record it returns keeps every key no node owns |
| Workflow.RunEdges | target/n8n-mta/workflow-filter.py:255-265 | following a node's connections keeps every key no node owns |
| Workflow.RevisitReturnsInput | target/n8n-mta/workflow-filter.py:245-247 | a node already visited on the branch returns the incoming record without running |
| Workflow.MissingTargetSkipped | target/n8n-mta/workflow-filter.py:261-265 | a followed connection to a missing node leaves the record alone, and the later connections still run |
| Workflow.EdgesThread | target/n8n-mta/workflow-filter.py:255-263 | sibling connections run in order with the record threaded through them; a fault stops the walk |
| Workflow.FirstTrigger | target/n8n-mta/workflow-filter.py:227-231 | the chosen node is a trigger; there is none exactly when no node is a trigger |
| Workflow.RunStartsAtFirstTrigger | target/n8n-mta/workflow-filter.py:222-241 | `execute` starts at the first trigger in key order with an empty visited set; with no trigger it returns exactly `{action: 'accept', error: 'No trigger node'}` |
| Engine.WorkflowEngine.constructor | target/n8n-mta/workflow-filter.py:186-220 | the node map and key order built in place are the graph `Build` describes, and the key order is well formed |
| Engine.WorkflowEngine.Execute | target/n8n-mta/workflow-filter.py:222-241 | the trigger search and walk return exactly the result of `Run` on the current graph |
| Engine.WorkflowEngine.ExecuteNode | target/n8n-mta/workflow-filter.py:243-267 | the recursive walk with its connection loop returns exactly `RunNode` |
| DefaultWorkflow.BuildDefault | target/n8n-mta/workflow-filter.py:306-362 | building the default configuration gives trigger → OR spam filter → reject on `"true"`, accept on `"false"`, in that key order |
| DefaultWorkflow.DefaultFilter | target/n8n-mta/workflow-filter.py:313-330 | the default filter never faults, and `filter_passed` is whether the subject contains `[spam]` or the sender contains `noreply@spam`, ignoring case |
| DefaultWorkflow.DefaultVerdict | target/n8n-mta/workflow-filter.py:306-362 | the default workflow never faults; spam is rejected with reason `'Message identified as spam'`, anything else accepted; `filter_passed` records the verdict; other fields are unchanged |
| DefaultWorkflow.DefaultRejectsTaggedSubject | target/n8n-mta/workflow-filter.py:306-362 | a message with subject `"[SPAM] buy now"` is rejected |
| DefaultWorkflow.DefaultAcceptsOrdinaryMail | target/n8n-mta/workflow-filter.py:306-362 | a message with subject `"hello"` from `"a@b.com"` is accepted |
| Fixtures.DiamondTrace | target/n8n-mta/workflow-filter.py:255-263 | in a diamond, the walk runs `left`, then `join`, then `right`, then `join` again, threading one record |
| Fixtures.DiamondRerunsSharedNode | target/n8n-mta/workflow-filter.py:249-263 | because each branch copies the visited set, a node shared by two branches runs on both; the last write wins (`tag`), and the earlier `reject_reason` stays in the record |

## Left out

- Logging: every `logger` call, and the logging setup, has no effect on results.
- `EmailProcessor._load_config` and the file handling of `_create_default_config`: reading
  and writing the JSON file are I/O. The default configuration is modelled as a constant.
  Its `name`/`description` keys and each node's `name` are never read by the engine.
- `process_email`, `_extract_body` and `main`: mail parsing is done by Python's `email`
  library. Also left out are timestamps, stdin/stdout, exit codes and quarantine file
  writes. The email record is an input.
- Regular expressions and `float()`: these are foreign. `regex`, `greater_than` and
  `less_than` use the `Builtins` oracles; only the exception-to-`False` behaviour is modelled.
  Float comparison is modelled on `real`. So there is no `inf`/`nan`, no rounding of large
  integers, and no `OverflowError`.
- Values.Lower: ASCII-only lower-casing stands in for Unicode `str.lower()`.
- Values.Repr: string escaping inside `repr()` is not modelled. Quotes are always single.
- Values.Value: a JSON float carries the text Python's `repr` prints for it as given data.
  The rendering of a float as text is not modelled.
- The configuration is typed. A missing `id`, `type`, `source` or `target` raises `KeyError`
  in the source. A non-string id or endpoint is possible in the source. Both fall outside
  the model's schema. A condition's `field`, `operator` and `value`, `logic`, `action_type`
  and a connection's `condition` are arbitrary JSON values: null, booleans,
  integers, floats, strings, lists and objects.
- Python's recursion limit on deep walks is not modelled. The model's walk always
  terminates.
- Record key order is not modelled. Records are maps, so the order of a record's keys is
  unobserved.
- The unused `self.connections` dict of `WorkflowEngine.__init__` is not modelled.
