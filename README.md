# jBPM audit-log service and serverless-workflow callback builder, in Dafny

This project models two parts of the Kogito runtimes and proves properties of them.

**The JPA audit-log service** (`JPAAuditLogService`) answers read queries over three audit tables:
ProcessInstanceLog, NodeInstanceLog and VariableInstanceLog.

- Every query runs inside one unit of work. `getEntityManager` picks an entity manager. `joinTransaction` either begins a transaction of the service's own or joins one that is already running. After the JPQL query, `closeEntityManager` does nothing at all in shared mode (IS_SHARED_ENTITY_MANAGER true). Otherwise it flushes, clears and closes the manager. Then, with a TransactionManager, it always calls `commit(newTx)` and leaves the decision to it; without one, it commits the UserTransaction only when the service began it.
- Module `AuditLogs` states each JPQL query as a function over the tables: a filter for the WHERE clause, then a sort by the ORDER BY key.
- Module `Bookkeeping` (file `bookkeeping.dfy`) states the begin and commit decisions as functions of the environment flags (IS_JTA_TRANSACTION, IS_SHARED_ENTITY_MANAGER, TRANSACTION_MANAGER) and the UserTransaction status.
- Module `AuditService` has a `Database` object. It holds the tables, whether a UserTransaction is bound and its status, a trace of the unit-of-work effects, and the set of open entity managers.
- The `JpaAuditLogService` class runs the service's methods step by step over that object. Each method is proved against the two specification modules.
- The answers of collaborators the service cannot predict come in as an `Outcomes` value: whether the factory can be built, what `TransactionManager.begin()` returns, and whether `begin`/`commit` of the UserTransaction throw.

Six queries run the JPQL on a second entity manager that they get from `getEntityManager()`, not on the one they joined and later close. Those six are findActiveProcessInstances, findProcessInstance, findSubProcessInstances, both findNodeInstances, and findVariableInstances(id). The model reproduces this. For those queries the postcondition says that, outside shared mode, one extra manager stays open after the unit of work. In shared mode the second call returns the command-scoped manager again, so nothing extra is opened.

**The callback-state handler** (`CallbackHandler.makeNode`) of the serverless-workflow parser builds a composite node. Inside the composite is an embedded sub-process: a start node named EmbeddedStart, the state's action if it has one, a node waiting for the callback event, and a terminating end node named EmbeddedEnd. Each node is connected to the next. Module `CallbackGraph` models the builders as classes that add nodes and connections one at a time. It models the id generator as a stream of ids drawn in order. The method is proved to build `EmbeddedChain` of the drawn ids, and lemmas prove the shape of that graph.

## Model

| member | source | states |
|---|---|---|
| Sequences.Filter | jbpm/jbpm-audit/src/main/java/org/jbpm/process/audit/JPAAuditLogService.java:121-123 | a WHERE clause: the result holds each row that satisfies the condition as often as the table does, and no other row |
| Sequences.SortByKey | jbpm/jbpm-audit/src/main/java/org/jbpm/process/audit/JPAAuditLogService.java:184-186 | an ORDER BY: the result is sorted by the key and is a permutation of its input |
| Sequences.RemoveFirst | jbpm/jbpm-audit/src/main/java/org/jbpm/process/audit/JPAAuditLogService.java:297-299 | em.remove of a row: the table loses exactly one copy of that row, and a row not in the table leaves it unchanged |
| AuditLogs.ProcessInstancesOf | jbpm/jbpm-audit/src/main/java/org/jbpm/process/audit/JPAAuditLogService.java:118-126 | the rows of the process-instance table whose processId is the argument, each as often as in the table, and nothing else |
| AuditLogs.ActiveProcessInstancesOf | jbpm/jbpm-audit/src/main/java/org/jbpm/process/audit/JPAAuditLogService.java:133-141 | the rows with the given processId and `end is null`, each as often as in the table, and nothing else |
| AuditLogs.ActiveWithinAll | jbpm/jbpm-audit/src/main/java/org/jbpm/process/audit/JPAAuditLogService.java:133-141 | the active instances of a process are a sub-multiset of all its instances, and each of them has no end date |
| AuditLogs.ProcessInstanceById | jbpm/jbpm-audit/src/main/java/org/jbpm/process/audit/JPAAuditLogService.java:147-159 | getSingleResult: no result exactly when no row has the id, NonUnique exactly when two rows have it, and otherwise the one row with that id |
| AuditLogs.RowsOfTail | jbpm/jbpm-audit/src/main/java/org/jbpm/process/audit/JPAAuditLogService.java:151-153 | how the rows for an id split between the head and the tail of the table (used by ProcessInstanceById) |
| AuditLogs.SubProcessInstancesOf | jbpm/jbpm-audit/src/main/java/org/jbpm/process/audit/JPAAuditLogService.java:166-174 | exactly the rows whose parentProcessInstanceId is the argument, each as often as in the table |
| AuditLogs.NodeInstancesOf | jbpm/jbpm-audit/src/main/java/org/jbpm/process/audit/JPAAuditLogService.java:181-189 | exactly the node rows of the instance, each as often as in the table, sorted ascending by (date, id) |
| AuditLogs.NodeInstancesOfNode | jbpm/jbpm-audit/src/main/java/org/jbpm/process/audit/JPAAuditLogService.java:196-205 | exactly the node rows of the instance and node, each as often as in the table, sorted ascending by (date, id) |
| AuditLogs.VariableInstancesOf | jbpm/jbpm-audit/src/main/java/org/jbpm/process/audit/JPAAuditLogService.java:212-220 | exactly the variable rows of the instance, each as often as in the table, sorted ascending by date |
| AuditLogs.VariableInstancesOfVariable | jbpm/jbpm-audit/src/main/java/org/jbpm/process/audit/JPAAuditLogService.java:227-236 | exactly the variable rows of the instance and variable, each as often as in the table, sorted ascending by date |
| AuditLogs.OldestFirst | jbpm/jbpm-audit/src/main/java/org/jbpm/process/audit/JPAAuditLogService.java:227-236 | two logged updates of one variable are both returned, the older one before the newer one |
| AuditLogs.EarlierDateFirst | jbpm/jbpm-audit/src/main/java/org/jbpm/process/audit/JPAAuditLogService.java:231-231 | in a result ordered by date, a row with an earlier date comes before a row with a later date |
| AuditLogs.ActiveJoin | jbpm/jbpm-audit/src/main/java/org/jbpm/process/audit/JPAAuditLogService.java:248-254 | the join with ProcessInstanceLog on `end is null`: each variable row appears once per running process-instance row of its instance |
| AuditLogs.VariableQuery | jbpm/jbpm-audit/src/main/java/org/jbpm/process/audit/JPAAuditLogService.java:244-256 | the rows that match, once each without onlyActive or once per running process-instance row with it, ordered by date |
| AuditLogs.VariableInstancesByName | jbpm/jbpm-audit/src/main/java/org/jbpm/process/audit/JPAAuditLogService.java:241-259 | findVariableInstancesByName: the rows of the variable, joined with running instances when onlyActive, ordered by date |
| AuditLogs.VariableInstancesByNameAndValue | jbpm/jbpm-audit/src/main/java/org/jbpm/process/audit/JPAAuditLogService.java:263-285 | findVariableInstancesByNameAndValue: the rows of the variable with that value, joined with running instances when onlyActive, ordered by date |
| AuditLogs.RunningRowExists | jbpm/jbpm-audit/src/main/java/org/jbpm/process/audit/JPAAuditLogService.java:253-253 | a positive count of running rows for an instance is witnessed by a row with that id and no end date |
| AuditLogs.OnlyActiveRowsBelongToRunningInstances | jbpm/jbpm-audit/src/main/java/org/jbpm/process/audit/JPAAuditLogService.java:248-254 | with onlyActive, every returned row is a matching row of the table whose instance has a process-instance row with `end is null` |
| AuditLogs.OnlyActiveWithinAll | jbpm/jbpm-audit/src/main/java/org/jbpm/process/audit/JPAAuditLogService.java:244-256 | every row returned with onlyActive is also returned without it |
| AuditLogs.AtMostOneActiveRow | jbpm/jbpm-audit/src/main/java/org/jbpm/process/audit/JPAAuditLogService.java:248-254 | with unique process-instance ids, an instance has at most one running row, so the join repeats nothing |
| AuditLogs.OnlyActiveSubMultiset | jbpm/jbpm-audit/src/main/java/org/jbpm/process/audit/JPAAuditLogService.java:244-256 | with unique process-instance ids, the onlyActive result is a sub-multiset of the unrestricted result |
| AuditLogs.ClearedTablesAnswerNothing | jbpm/jbpm-audit/src/main/java/org/jbpm/process/audit/JPAAuditLogService.java:292-309 | once the three tables are empty, every find query returns an empty list, and findProcessInstance returns no result |
| Bookkeeping.TransactionManagerDecides | jbpm/jbpm-audit/src/main/java/org/jbpm/process/audit/JPAAuditLogService.java:349-406 | with a TransactionManager, newTx is what its begin() returned and, outside shared mode, the unit of work ends with commit(newTx); the UserTransaction is never touched |
| Bookkeeping.UserTransactionDecides | jbpm/jbpm-audit/src/main/java/org/jbpm/process/audit/JPAAuditLogService.java:355-368 | without a TransactionManager, newTx holds exactly when the UserTransaction is bound, its status is STATUS_NO_TRANSACTION and begin() succeeds |
| Bookkeeping.ExistingTransactionUntouched | jbpm/jbpm-audit/src/main/java/org/jbpm/process/audit/JPAAuditLogService.java:358-416 | a UserTransaction that was already running is neither begun nor committed, and its status is unchanged |
| Bookkeeping.CommitsOnlyWhatItBegan | jbpm/jbpm-audit/src/main/java/org/jbpm/process/audit/JPAAuditLogService.java:355-416 | every UserTransaction commit of a unit of work comes after a successful begin in that same unit of work |
| Bookkeeping.AtMostOneCommit | jbpm/jbpm-audit/src/main/java/org/jbpm/process/audit/JPAAuditLogService.java:386-418 | a unit of work commits at most once: no two of its effects are commits, whether through the TransactionManager or the UserTransaction |
| Bookkeeping.SharedModeCloseIsNoop | jbpm/jbpm-audit/src/main/java/org/jbpm/process/audit/JPAAuditLogService.java:386-394 | with IS_SHARED_ENTITY_MANAGER true, closing performs no flush, clear, close or commit and leaves the status as it was |
| Bookkeeping.OwnTransactionCommitted | jbpm/jbpm-audit/src/main/java/org/jbpm/process/audit/JPAAuditLogService.java:405-416 | outside shared mode, a transaction the service began on the UserTransaction is committed, and a successful commit leaves no transaction running |
| AuditService.Database.OpenManager | jbpm/jbpm-audit/src/main/java/org/jbpm/process/audit/JPAAuditLogService.java:440-451 | createEntityManager opens a manager that was not open before, and only that one |
| AuditService.JpaAuditLogService.constructor | jbpm/jbpm-audit/src/main/java/org/jbpm/process/audit/JPAAuditLogService.java:61-68 | the service starts with the given environment, no factory of its own, and the persistence unit org.jbpm.persistence.jpa |
| AuditService.JpaAuditLogService.SetEnvironment | jbpm/jbpm-audit/src/main/java/org/jbpm/process/audit/JPAAuditLogService.java:74-80 | the new environment is adopted, and the service's own factory is closed if it had one and then forgotten |
| AuditService.JpaAuditLogService.GetPersistenceUnitName | jbpm/jbpm-audit/src/main/java/org/jbpm/process/audit/JPAAuditLogService.java:86-88 | returns the persistence unit name |
| AuditService.JpaAuditLogService.SetPersistenceUnitName | jbpm/jbpm-audit/src/main/java/org/jbpm/process/audit/JPAAuditLogService.java:94-96 | replaces the persistence unit name |
| AuditService.JpaAuditLogService.GetEntityManager | jbpm/jbpm-audit/src/main/java/org/jbpm/process/audit/JPAAuditLogService.java:428-455 | fails exactly when there is no environment, no factory yet and building one fails; in shared mode it returns the command-scoped manager and changes nothing; otherwise it opens one new manager, building the service's own factory on first use without an environment |
| AuditService.JpaAuditLogService.JoinTransaction | jbpm/jbpm-audit/src/main/java/org/jbpm/process/audit/JPAAuditLogService.java:338-375 | newTx, the effects and the new UserTransaction status are those the Join decision prescribes |
| AuditService.JpaAuditLogService.CloseEntityManager | jbpm/jbpm-audit/src/main/java/org/jbpm/process/audit/JPAAuditLogService.java:386-418 | the effects and the new status are those the Close decision prescribes; outside shared mode the manager is no longer open |
| AuditService.JpaAuditLogService.Begin | jbpm/jbpm-audit/src/main/java/org/jbpm/process/audit/JPAAuditLogService.java:134-136 | getEntityManager and then joinTransaction, optionally followed by a second getEntityManager that cannot fail: it fails exactly when the first does; the effects and status are those of Join; without an environment the factory built on first use stays open (emfOpen); the manager counter advances by one per manager opened (none in shared mode or on failure) |
| AuditService.JpaAuditLogService.FindProcessInstances | jbpm/jbpm-audit/src/main/java/org/jbpm/process/audit/JPAAuditLogService.java:105-111 | the whole process-instance table, with one complete unit of work that leaves no manager open; a factory built without an environment stays open for later queries, and the manager counter advances by the managers opened |
| AuditService.JpaAuditLogService.FindProcessInstancesOf | jbpm/jbpm-audit/src/main/java/org/jbpm/process/audit/JPAAuditLogService.java:118-126 | ProcessInstancesOf the table, with one complete unit of work that leaves no manager open; a factory built without an environment stays open for later queries, and the manager counter advances by the managers opened |
| AuditService.JpaAuditLogService.FindActiveProcessInstances | jbpm/jbpm-audit/src/main/java/org/jbpm/process/audit/JPAAuditLogService.java:133-141 | ActiveProcessInstancesOf the table, with one complete unit of work plus, outside shared mode, the second manager left open; a factory built without an environment stays open for later queries, and the manager counter advances by the managers opened |
| AuditService.JpaAuditLogService.FindProcessInstance | jbpm/jbpm-audit/src/main/java/org/jbpm/process/audit/JPAAuditLogService.java:147-159 | null when no row has the id, the single row when exactly one has it, NonUniqueResult when several have it; the unit of work is released on all three paths, and outside shared mode the second manager stays open; a factory built without an environment stays open for later queries, and the manager counter advances by the managers opened |
| AuditService.JpaAuditLogService.FindSubProcessInstances | jbpm/jbpm-audit/src/main/java/org/jbpm/process/audit/JPAAuditLogService.java:166-174 | SubProcessInstancesOf the table, with one complete unit of work plus, outside shared mode, the second manager left open; a factory built without an environment stays open for later queries, and the manager counter advances by the managers opened |
| AuditService.JpaAuditLogService.FindNodeInstances | jbpm/jbpm-audit/src/main/java/org/jbpm/process/audit/JPAAuditLogService.java:181-189 | NodeInstancesOf the table, with one complete unit of work plus, outside shared mode, the second manager left open; a factory built without an environment stays open for later queries, and the manager counter advances by the managers opened |
| AuditService.JpaAuditLogService.FindNodeInstancesOfNode | jbpm/jbpm-audit/src/main/java/org/jbpm/process/audit/JPAAuditLogService.java:196-205 | NodeInstancesOfNode the table, with one complete unit of work plus, outside shared mode, the second manager left open; a factory built without an environment stays open for later queries, and the manager counter advances by the managers opened |
| AuditService.JpaAuditLogService.FindVariableInstances | jbpm/jbpm-audit/src/main/java/org/jbpm/process/audit/JPAAuditLogService.java:212-220 | VariableInstancesOf the table, with one complete unit of work plus, outside shared mode, the second manager left open; a factory built without an environment stays open for later queries, and the manager counter advances by the managers opened |
| AuditService.JpaAuditLogService.FindVariableInstancesOfVariable | jbpm/jbpm-audit/src/main/java/org/jbpm/process/audit/JPAAuditLogService.java:227-236 | VariableInstancesOfVariable the table, with one complete unit of work that leaves no manager open; a factory built without an environment stays open for later queries, and the manager counter advances by the managers opened |
| AuditService.JpaAuditLogService.FindVariableInstancesByName | jbpm/jbpm-audit/src/main/java/org/jbpm/process/audit/JPAAuditLogService.java:241-259 | VariableInstancesByName over both tables, with one complete unit of work that leaves no manager open; a factory built without an environment stays open for later queries, and the manager counter advances by the managers opened |
| AuditService.JpaAuditLogService.FindVariableInstancesByNameAndValue | jbpm/jbpm-audit/src/main/java/org/jbpm/process/audit/JPAAuditLogService.java:263-285 | VariableInstancesByNameAndValue over both tables, with one complete unit of work that leaves no manager open; a factory built without an environment stays open for later queries, and the manager counter advances by the managers opened |
| AuditService.JpaAuditLogService.Clear | jbpm/jbpm-audit/src/main/java/org/jbpm/process/audit/JPAAuditLogService.java:292-309 | on success all three tables are empty, with one complete unit of work; outside shared mode one manager is opened and closed again, and without an environment the factory built for it stays open; on failure nothing changes |
| CallbackGraph.Drawn | kogito-serverless-workflow/kogito-serverless-workflow-builder/src/main/java/org/kie/kogito/serverless/workflow/parser/handlers/CallbackHandler.java:36-47 | the ids handed out by consecutive getId() calls: n of them, the i-th being draw number from + i |
| CallbackGraph.Link | kogito-serverless-workflow/kogito-serverless-workflow-builder/src/main/java/org/kie/kogito/serverless/workflow/parser/handlers/CallbackHandler.java:41-49 | connecting each node to the next: one connection fewer than there are nodes, the k-th from node k to node k + 1 |
| CallbackGraph.EmbeddedChain | kogito-serverless-workflow/kogito-serverless-workflow-builder/src/main/java/org/kie/kogito/serverless/workflow/parser/handlers/CallbackHandler.java:37-49 | the embedded sub-process has one node per drawn id, each node carrying its id in drawing order |
| CallbackGraph.NodeIdGenerator.GetId | kogito-serverless-workflow/kogito-serverless-workflow-builder/src/main/java/org/kie/kogito/serverless/workflow/parser/handlers/CallbackHandler.java:36-36 | getId() hands out the next id of the stream and advances the generator |
| CallbackGraph.CompositeContextNodeFactory.constructor | kogito-serverless-workflow/kogito-serverless-workflow-builder/src/main/java/org/kie/kogito/serverless/workflow/parser/handlers/CallbackHandler.java:36-36 | the composite carries its id, name and autoComplete flag and starts with no nodes and no connections |
| CallbackGraph.CompositeContextNodeFactory.AddNode | kogito-serverless-workflow/kogito-serverless-workflow-builder/src/main/java/org/kie/kogito/serverless/workflow/parser/handlers/CallbackHandler.java:37-37 | a node builder appends its node to the embedded sub-process |
| CallbackGraph.CompositeContextNodeFactory.Connect | kogito-serverless-workflow/kogito-serverless-workflow-builder/src/main/java/org/kie/kogito/serverless/workflow/parser/handlers/CallbackHandler.java:41-41 | connection(from, to) appends exactly that connection |
| CallbackGraph.NodeContainerFactory.CompositeContextNode | kogito-serverless-workflow/kogito-serverless-workflow-builder/src/main/java/org/kie/kogito/serverless/workflow/parser/handlers/CallbackHandler.java:36-36 | compositeContextNode(id).name(name).autoComplete(flag): a new, empty composite with those settings, added to the enclosing container |
| CallbackGraph.CallbackHandler.constructor | kogito-serverless-workflow/kogito-serverless-workflow-builder/src/main/java/org/kie/kogito/serverless/workflow/parser/handlers/CallbackHandler.java:30-32 | the handler keeps the state, the container factory and the id generator it is given |
| CallbackGraph.CallbackHandler.GetActionNode | kogito-serverless-workflow/kogito-serverless-workflow-builder/src/main/java/org/kie/kogito/serverless/workflow/parser/handlers/CallbackHandler.java:40-40 | the action node: one node running the action, with the next id of the generator |
| CallbackGraph.CallbackHandler.AddStartNode | kogito-serverless-workflow/kogito-serverless-workflow-builder/src/main/java/org/kie/kogito/serverless/workflow/parser/handlers/CallbackHandler.java:37-37 | the start node named EmbeddedStart, with the next id of the generator |
| CallbackGraph.CallbackHandler.AddActionStep | kogito-serverless-workflow/kogito-serverless-workflow-builder/src/main/java/org/kie/kogito/serverless/workflow/parser/handlers/CallbackHandler.java:40-42 | the action node with the next id, connected from the start node |
| CallbackGraph.CallbackHandler.AddActionIfAny | kogito-serverless-workflow/kogito-serverless-workflow-builder/src/main/java/org/kie/kogito/serverless/workflow/parser/handlers/CallbackHandler.java:38-43 | with an action, the action step, which then stands in for the start node; without one, nothing is drawn or added |
| CallbackGraph.CallbackHandler.AddEventStep | kogito-serverless-workflow/kogito-serverless-workflow-builder/src/main/java/org/kie/kogito/serverless/workflow/parser/handlers/CallbackHandler.java:44-46 | the event node with the next id, waiting for the state's event and connected from the node before it |
| CallbackGraph.CallbackHandler.AddEndStep | kogito-serverless-workflow/kogito-serverless-workflow-builder/src/main/java/org/kie/kogito/serverless/workflow/parser/handlers/CallbackHandler.java:47-49 | the end node named EmbeddedEnd with terminate set, with the next id, connected from the event node |
| CallbackGraph.CallbackHandler.BuildEmbeddedChain | kogito-serverless-workflow/kogito-serverless-workflow-builder/src/main/java/org/kie/kogito/serverless/workflow/parser/handlers/CallbackHandler.java:37-49 | the embedded sub-process it builds is exactly EmbeddedChain of the ids drawn, and it draws one id per node |
| CallbackGraph.CallbackHandler.MakeNode | kogito-serverless-workflow/kogito-serverless-workflow-builder/src/main/java/org/kie/kogito/serverless/workflow/parser/handlers/CallbackHandler.java:35-51 | a new composite added to the container, with the first drawn id as its own, named after the state with autoComplete set, holding exactly EmbeddedChain of the ids drawn after it |
| CallbackGraph.ChainBuilt | kogito-serverless-workflow/kogito-serverless-workflow-builder/src/main/java/org/kie/kogito/serverless/workflow/parser/handlers/CallbackHandler.java:37-49 | the nodes and connections added one at a time form EmbeddedChain of the ids |
| CallbackGraph.ChainShape | kogito-serverless-workflow/kogito-serverless-workflow-builder/src/main/java/org/kie/kogito/serverless/workflow/parser/handlers/CallbackHandler.java:37-49 | the first node is start named EmbeddedStart and the last is end named EmbeddedEnd with terminate; the event node is second to last; the action, exactly when there is one, comes second; no start or end node sits in between |
| CallbackGraph.ChainConnections | kogito-serverless-workflow/kogito-serverless-workflow-builder/src/main/java/org/kie/kogito/serverless/workflow/parser/handlers/CallbackHandler.java:39-49 | the connections are exactly start to event and event to end without an action, and start to action, action to event and event to end with one |
| CallbackGraph.IdsDistinct | kogito-serverless-workflow/kogito-serverless-workflow-builder/src/main/java/org/kie/kogito/serverless/workflow/parser/handlers/CallbackHandler.java:36-47 | when the generator never repeats, the embedded nodes have pairwise distinct ids, all different from the composite's id |
| CallbackGraph.NoConnectionsOf | kogito-serverless-workflow/kogito-serverless-workflow-builder/src/main/java/org/kie/kogito/serverless/workflow/parser/handlers/CallbackHandler.java:41-49 | a node that is not in the chain has no connection in or out |
| CallbackGraph.LinkIsLinear | kogito-serverless-workflow/kogito-serverless-workflow-builder/src/main/java/org/kie/kogito/serverless/workflow/parser/handlers/CallbackHandler.java:41-49 | linking nodes with distinct ids gives each node but the first exactly one incoming connection and each node but the last exactly one outgoing connection; the first has no incoming and the last no outgoing connection |
| CallbackGraph.ChainIsLinear | kogito-serverless-workflow/kogito-serverless-workflow-builder/src/main/java/org/kie/kogito/serverless/workflow/parser/handlers/CallbackHandler.java:41-49 | in the embedded sub-process with distinct ids, only start has no incoming connection and only end has no outgoing one; every other in- and out-degree is one |
| CallbackGraph.EventPrecedesEnd | kogito-serverless-workflow/kogito-serverless-workflow-builder/src/main/java/org/kie/kogito/serverless/workflow/parser/handlers/CallbackHandler.java:44-49 | the node before the end waits for the event, it is connected to the end, and it is the end's only predecessor |
| AuditLogs.NodeKey | jbpm/jbpm-audit/src/main/java/org/jbpm/process/audit/JPAAuditLogService.java:185-185 | the `ORDER BY date,id` key of a node row |
| AuditLogs.VariableKey | jbpm/jbpm-audit/src/main/java/org/jbpm/process/audit/JPAAuditLogService.java:216-216 | the `ORDER BY date` key of a variable row; its second component is constant, so ties on date stay unordered by the key |
| AuditLogs.ActiveRows | jbpm/jbpm-audit/src/main/java/org/jbpm/process/audit/JPAAuditLogService.java:250-253 | the process-instance side of the join: the number of rows of the instance with `end is null`, at most the table size, and zero exactly when no such row exists |
| Bookkeeping.IsJta | jbpm/jbpm-audit/src/main/java/org/jbpm/process/audit/JPAAuditLogService.java:339-345 | IS_JTA_TRANSACTION: true unless the environment exists and its entry is explicitly false |
| Bookkeeping.IsSharedEntityManager | jbpm/jbpm-audit/src/main/java/org/jbpm/process/audit/JPAAuditLogService.java:387-393 | IS_SHARED_ENTITY_MANAGER: true exactly when the environment exists and its entry is true |
| Bookkeeping.HasTransactionManager | jbpm/jbpm-audit/src/main/java/org/jbpm/process/audit/JPAAuditLogService.java:347-354 | a TransactionManager is found only in an environment |
| Bookkeeping.Join | jbpm/jbpm-audit/src/main/java/org/jbpm/process/audit/JPAAuditLogService.java:338-375 | the joinTransaction decision: the manager is joined exactly when IS_JTA_TRANSACTION holds, and as the last step; newTx holds only after a TransactionManager begin() that returned true or a successful begin of an idle, bound UserTransaction; the status changes only from STATUS_NO_TRANSACTION to STATUS_ACTIVE when the service began the transaction |
| Bookkeeping.Close | jbpm/jbpm-audit/src/main/java/org/jbpm/process/audit/JPAAuditLogService.java:386-418 | the closeEntityManager decision: no effect at all exactly in shared mode; otherwise flush, clear and close come first; the status changes only to STATUS_NO_TRANSACTION, by committing a transaction the service began, outside shared mode |
| Bookkeeping.UnitOfWork | jbpm/jbpm-audit/src/main/java/org/jbpm/process/audit/JPAAuditLogService.java:106-109 | one query's unit of work: outside shared mode with a commit that succeeds, the UserTransaction status ends as it began; in shared mode a UserTransaction the service began stays active |
| AuditService.JpaAuditLogService.ManagerUnavailable | jbpm/jbpm-audit/src/main/java/org/jbpm/process/audit/JPAAuditLogService.java:430-438 | getEntityManager throws exactly when there is no environment, no factory yet, and the factory cannot be built |
| AuditService.JpaAuditLogService.Released | jbpm/jbpm-audit/src/main/java/org/jbpm/process/audit/JPAAuditLogService.java:106-109 | what one query leaves behind: on failure nothing; otherwise the Join and Close effects in order, the status after both, the acquired manager closed outside shared mode, the leaked manager open, the factory kept, and the counter advanced |
| AuditService.JpaAuditLogService.RemoveEveryRow | jbpm/jbpm-audit/src/main/java/org/jbpm/process/audit/JPAAuditLogService.java:296-307 | the removal loops of clear(): all three tables end empty |
| CallbackGraph.ChainLength | kogito-serverless-workflow/kogito-serverless-workflow-builder/src/main/java/org/kie/kogito/serverless/workflow/parser/handlers/CallbackHandler.java:37-47 | the number of ids the embedded chain draws: four exactly when the state has an action, otherwise three |
| CallbackGraph.ChainNodes | kogito-serverless-workflow/kogito-serverless-workflow-builder/src/main/java/org/kie/kogito/serverless/workflow/parser/handlers/CallbackHandler.java:37-49 | the embedded nodes in the order they are added: one per id, carrying that id, with start first, end last and the event node just before end |
| CallbackGraph.InDegree | kogito-serverless-workflow/kogito-serverless-workflow-builder/src/main/java/org/kie/kogito/serverless/workflow/parser/handlers/CallbackHandler.java:41-49 | the connections into a node: at most all of them, and none exactly when no connection ends at it |
| CallbackGraph.OutDegree | kogito-serverless-workflow/kogito-serverless-workflow-builder/src/main/java/org/kie/kogito/serverless/workflow/parser/handlers/CallbackHandler.java:41-49 | the connections out of a node: at most all of them, and none exactly when no connection starts at it |

## Left out

- JPA, JNDI and JPQL machinery is abstracted. The model has no Persistence.createEntityManagerFactory, InitialContext lookups, JPQL parsing, or detachment by flush and clear: the tables are sequences, and flush, clear and close are recorded as effects. Logging is left out.
- dispose() and finalize() (JPAAuditLogService.java:315-325) are not modelled. They close the service's own factory but keep the reference, so a later query without an environment skips the rebuild and fails on the closed factory.
- The error message at JPAAuditLogService.java:435 dereferences a null emf, so Java actually throws a NullPointerException rather than the intended RuntimeException. The model records both as the single error FactoryUnavailable.
- Null entries for CMD_SCOPED_ENTITY_MANAGER or ENTITY_MANAGER_FACTORY are not modelled. In shared mode the command-scoped manager is assumed present, and otherwise the environment's factory is assumed present.
- Entity managers are identified only by a number. Which manager a query runs on does not change its answer in the model: every manager sees the same tables.
- The TransactionManager's own state is not modelled. Its begin() result is an input, and its commit is recorded as an effect.
- Bookkeeping.Join and Bookkeeping.Close: an exception thrown by TransactionManager.begin() (JPAAuditLogService.java:356) or by commit(newTx) (:406) is not modelled. Neither call sits in a try block, so in Java such an exception leaves every query and clear(). After a failed begin the entity manager is neither joined nor closed; after a failed commit the query's result is lost. The model lets both calls return normally, and the query methods' contracts cover only that case.
- A UserTransaction commit that throws leaves the recorded status unchanged, because the real status after a failed commit is not visible in the source.
- AuditService.JpaAuditLogService.Clear: the empty tables it promises are what the running transaction sees. When the service began its own UserTransaction and that commit then throws (JPAAuditLogService.java:409-414), Java swallows the error and clear() returns normally, yet the removals were never committed. The model keeps the tables empty and leaves utStatus as it was. It does not model the rollback that would bring the rows back.
- The tables are not changed by the queries, and the model has no concurrent callers, no rollback, and no isolation between transactions.
- ORDER BY does not fix the order of rows that tie on the key, and a query without ORDER BY (findProcessInstances and the process-instance queries) has no order at all. The model still returns one definite sequence: tied rows, and the rows of an unordered query, come back in table order, which the database does not promise. Only the sortedness and the multiset of rows stated by the query functions' contracts are claims about the program.
- A NonUniqueResultException from findProcessInstance is a Failure value. The model proves that the unit of work is still released first, as the finally block does.
- CallbackGraph.CallbackHandler.GetActionNode: getActionNode belongs to a superclass that is not part of this model. It is modelled as one action node with one freshly drawn id.
- messageEventNode and getWorkflowEventFor are not part of this model. The event node records the state's eventRef rather than the resolved event definition.
- The workflow argument of the handler is not modelled. Only the state's name, action and eventRef are read.
- The builders' name(...) and autoComplete(...) calls are fixed when the composite is created. The composite's name and flag are constant fields, so the model does not show them being set after creation.
- The id generator is a stream of ids, draw number n being the n-th id it hands out. Which ids the real generator produces is outside this model. Distinctness is proved under the assumption that the stream never repeats.
