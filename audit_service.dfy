/** The JPA audit-log service: every query acquires an entity manager, joins or
    starts a transaction, runs one JPQL query and releases the unit of work.

    The database and the JNDI-bound UserTransaction are abstracted as a
    `Database` object: the three log tables, whether a UserTransaction is bound
    and its status, the trace of unit-of-work effects, and the set of entity
    managers that are open. The answers of collaborators that the service cannot
    predict (factory creation, begin and commit) arrive as an `Outcomes` value. */
module AuditService {
  import opened Sequences
  import opened AuditLogs
  import opened Bookkeeping

  /** The persistence unit used when the service builds its own factory. */
  const DefaultPersistenceUnitName: string := "org.jbpm.persistence.jpa"

  /** An entity manager the service opened from a factory, or the command-scoped
      one that the environment hands out in shared mode. */
  datatype EntityManager = Opened(id: nat) | CommandScoped

  datatype ServiceError =
    | FactoryUnavailable   // the RuntimeException of getEntityManager
    | NonUniqueResult      // NonUniqueResultException of getSingleResult

  class Database {
    var processLogs: seq<ProcessInstanceLog>
    var nodeLogs: seq<NodeInstanceLog>
    var variableLogs: seq<VariableInstanceLog>
    /** Whether java:comp/UserTransaction can be looked up. */
    var utBound: bool
    /** The status that UserTransaction.getStatus() reports. */
    var utStatus: int
    /** Every unit-of-work effect so far, oldest first. */
    var effects: seq<Effect>
    /** The entity managers that are open, and the identity of the next one. */
    var openManagers: set<nat>
    var nextManager: nat

    ghost predicate Valid()
      reads this
    {
      forall m :: m in openManagers ==> m < nextManager
    }

    constructor(processLogs: seq<ProcessInstanceLog>, nodeLogs: seq<NodeInstanceLog>,
                variableLogs: seq<VariableInstanceLog>, utBound: bool, utStatus: int)
      ensures Valid()
      ensures this.processLogs == processLogs && this.nodeLogs == nodeLogs && this.variableLogs == variableLogs
      ensures this.utBound == utBound && this.utStatus == utStatus
      ensures effects == [] && openManagers == {} && nextManager == 0
    {
      this.processLogs, this.nodeLogs, this.variableLogs := processLogs, nodeLogs, variableLogs;
      this.utBound, this.utStatus := utBound, utStatus;
      effects, openManagers, nextManager := [], {}, 0;
    }

    /** EntityManagerFactory.createEntityManager(): a new, open persistence context. */
    method OpenManager() returns (em: EntityManager)
      requires Valid()
      modifies this`openManagers, this`nextManager
      ensures Valid()
      ensures em == Opened(old(nextManager)) && em.id !in old(openManagers)
      ensures openManagers == old(openManagers) + {em.id} && nextManager == old(nextManager) + 1
    {
      em := Opened(nextManager);
      openManagers := openManagers + {nextManager};
      nextManager := nextManager + 1;
    }
  }

  class JpaAuditLogService {
    var env: Option<Environment>
    /** Whether the service holds an entity manager factory of its own (`emf != null`). */
    var emfOpen: bool
    /** How many of its own factories the service has closed. */
    var closedFactories: nat
    var persistenceUnitName: string
    const db: Database

    constructor(db: Database, env: Option<Environment>)
      ensures this.db == db && this.env == env
      ensures !emfOpen && closedFactories == 0
      ensures persistenceUnitName == DefaultPersistenceUnitName
    {
      this.db, this.env := db, env;
      emfOpen, closedFactories := false, 0;
      persistenceUnitName := DefaultPersistenceUnitName;
    }

    /** setEnvironment: adopt the new environment and close and forget the service's own factory. */
    method SetEnvironment(env: Option<Environment>)
      modifies this`env, this`emfOpen, this`closedFactories
      ensures this.env == env && !emfOpen
      ensures closedFactories == old(closedFactories) + (if old(emfOpen) then 1 else 0)
    {
      this.env := env;
      if emfOpen {
        closedFactories := closedFactories + 1;
      }
      emfOpen := false;
    }

    method GetPersistenceUnitName() returns (name: string)
      ensures name == persistenceUnitName
    {
      name := persistenceUnitName;
    }

    method SetPersistenceUnitName(name: string)
      modifies this`persistenceUnitName
      ensures persistenceUnitName == name
    {
      persistenceUnitName := name;
    }

    /** getEntityManager fails only when there is no environment, no factory yet, and
        building the factory for the persistence unit fails. */
    predicate ManagerUnavailable(o: Outcomes)
      reads this
    {
      env.None? && !emfOpen && !o.factoryCreated
    }

    /** getEntityManager: without an environment, a manager from the service's own
        factory, built on first use; in shared mode the command-scoped manager of the
        environment; otherwise a manager from the environment's factory. */
    method GetEntityManager(o: Outcomes) returns (r: Result<EntityManager, ServiceError>)
      requires db.Valid()
      modifies this`emfOpen, db`openManagers, db`nextManager
      ensures db.Valid()
      ensures r.Failure? <==> old(ManagerUnavailable(o))
      ensures r.Failure? ==> r.error == FactoryUnavailable && emfOpen == old(emfOpen) && unchanged(db)
      ensures env.Some? ==> emfOpen == old(emfOpen)
      ensures env.None? && r.Success? ==> emfOpen
      ensures IsSharedEntityManager(env) ==> r == Success(CommandScoped) && unchanged(db)
      ensures !IsSharedEntityManager(env) && r.Success? ==>
                && r.value == Opened(old(db.nextManager))
                && db.openManagers == old(db.openManagers) + {old(db.nextManager)}
                && db.nextManager == old(db.nextManager) + 1
    {
      if env.None? {
        if !emfOpen {
          if !o.factoryCreated {
            return Failure(FactoryUnavailable);
          }
          emfOpen := true;
        }
        var em := db.OpenManager();
        r := Success(em);
      } else {
        var sharedEm := env.value.isSharedEntityManager.Some? && env.value.isSharedEntityManager.value;
        if sharedEm {
          r := Success(CommandScoped);
        } else {
          var em := db.OpenManager();
          r := Success(em);
        }
      }
    }

    /** joinTransaction: decides `newTx` as `Join` states. */
    method JoinTransaction(em: EntityManager, o: Outcomes) returns (newTx: bool)
      modifies db`effects, db`utStatus
      ensures var step := Join(env, db.utBound, old(db.utStatus), o);
                newTx == step.newTx && db.effects == old(db.effects) + step.effects && db.utStatus == step.status
    {
      var isJta := true;
      if env.Some? && env.value.isJtaTransaction.Some? {
        isJta := env.value.isJtaTransaction.value;
      }
      newTx := false;
      var hasTransactionManager := env.Some? && env.value.hasTransactionManager;
      if hasTransactionManager {
        db.effects := db.effects + [TmBegin];
        newTx := o.tmBeginResult;
      } else if db.utBound {
        if db.utStatus == StatusNoTransaction {
          db.effects := db.effects + [UtBegin(o.utBeginSucceeds)];
          if o.utBeginSucceeds {
            db.utStatus := StatusActive;
            newTx := true;
          }
        }
      }
      if isJta {
        db.effects := db.effects + [EmJoin];
      }
    }

    /** closeEntityManager: releases the unit of work as `Close` states, and closes
        the manager outside shared mode. */
    method CloseEntityManager(em: EntityManager, newTx: bool, o: Outcomes)
      requires db.Valid()
      modifies db`effects, db`utStatus, db`openManagers
      ensures db.Valid()
      ensures var step := Close(env, db.utBound, old(db.utStatus), newTx, o);
                db.effects == old(db.effects) + step.effects && db.utStatus == step.status
      ensures db.openManagers ==
                if !IsSharedEntityManager(env) && em.Opened? then old(db.openManagers) - {em.id}
                else old(db.openManagers)
    {
      var sharedEm := env.Some? && env.value.isSharedEntityManager.Some? && env.value.isSharedEntityManager.value;
      if !sharedEm {
        var done := [EmFlush, EmClear, EmClose];
        if em.Opened? {
          db.openManagers := db.openManagers - {em.id};
        }
        var hasTransactionManager := env.Some? && env.value.hasTransactionManager;
        if hasTransactionManager {
          done := done + [TmCommit(newTx)];
        } else if newTx {
          var committed := db.utBound && o.utCommitSucceeds;
          done := done + [UtCommit(committed)];
          if committed {
            db.utStatus := StatusNoTransaction;
          }
        }
        db.effects := db.effects + done;
      }
    }

    /** What a query leaves behind. When getEntityManager failed, nothing happened.
        Otherwise exactly one unit of work ran, and the manager the query acquired is
        closed again outside shared mode; with `leaked`, the query ran on a second
        manager from getEntityManager, which stays open. Without an environment, the
        service keeps the factory it built for later queries. */
    twostate predicate Released(o: Outcomes, failed: bool, leaked: bool)
      reads this, db
    {
      && emfOpen == (old(emfOpen) || (env.None? && !failed))
      && db.nextManager ==
           (if failed || IsSharedEntityManager(env) then old(db.nextManager)
            else old(db.nextManager) + (if leaked then 2 else 1))
      && if failed then
        db.effects == old(db.effects) && db.utStatus == old(db.utStatus) && db.openManagers == old(db.openManagers)
      else
        var join := Join(env, db.utBound, old(db.utStatus), o);
        var close := Close(env, db.utBound, join.status, join.newTx, o);
        && db.effects == old(db.effects) + join.effects + close.effects
        && db.utStatus == close.status
        && db.openManagers ==
             if leaked && !IsSharedEntityManager(env) then old(db.openManagers) + {old(db.nextManager) + 1}
             else old(db.openManagers)
    }

    /** The opening of every query: getEntityManager, then joinTransaction; with
        `leaked`, the query itself then calls getEntityManager a second time, and that
        manager is never closed. The second call cannot fail, since the first already
        built any factory it needs. On success, closing the returned manager leaves
        open exactly the managers open before, plus the leaked one. */
    method Begin(o: Outcomes, leaked: bool) returns (r: Result<(EntityManager, bool), ServiceError>)
      requires db.Valid()
      modifies this`emfOpen, db`effects, db`utStatus, db`openManagers, db`nextManager
      ensures db.Valid()
      ensures r.Failure? <==> old(ManagerUnavailable(o))
      ensures r.Failure? ==> r.error == FactoryUnavailable && unchanged(db)
      ensures emfOpen == (old(emfOpen) || (env.None? && r.Success?))
      ensures db.nextManager ==
                if r.Failure? || IsSharedEntityManager(env) then old(db.nextManager)
                else old(db.nextManager) + (if leaked then 2 else 1)
      ensures r.Success? ==>
                var join := Join(env, db.utBound, old(db.utStatus), o);
                && r.value.1 == join.newTx
                && db.effects == old(db.effects) + join.effects
                && db.utStatus == join.status
      ensures r.Success? && IsSharedEntityManager(env) ==>
                r.value.0 == CommandScoped && db.openManagers == old(db.openManagers)
      ensures r.Success? && !IsSharedEntityManager(env) ==>
                && r.value.0 == Opened(old(db.nextManager))
                && db.openManagers - {old(db.nextManager)} ==
                     old(db.openManagers) + (if leaked then {old(db.nextManager) + 1} else {})
    {
      var got := GetEntityManager(o);
      if got.Failure? {
        return Failure(got.error);
      }
      var em := got.value;
      var newTx := JoinTransaction(em, o);
      if leaked {
        var second := GetEntityManager(o);
      }
      r := Success((em, newTx));
    }

    // -------------------------------------------------------------------------
    // Queries

    /** findProcessInstances(): FROM ProcessInstanceLog */
    method FindProcessInstances(o: Outcomes) returns (r: Result<seq<ProcessInstanceLog>, ServiceError>)
      requires db.Valid()
      modifies this`emfOpen, db`effects, db`utStatus, db`openManagers, db`nextManager
      ensures db.Valid()
      ensures r.Failure? <==> old(ManagerUnavailable(o))
      ensures r.Failure? ==> r.error == FactoryUnavailable
      ensures r.Success? ==> r.value == old(db.processLogs)
      ensures Released(o, r.Failure?, false)
    {
      var begun := Begin(o, false);
      if begun.Failure? {
        return Failure(begun.error);
      }
      var (em, newTx) := begun.value;
      r := Success(db.processLogs);
      CloseEntityManager(em, newTx, o);
    }

    /** findProcessInstances(processId) */
    method FindProcessInstancesOf(processId: string, o: Outcomes) returns (r: Result<seq<ProcessInstanceLog>, ServiceError>)
      requires db.Valid()
      modifies this`emfOpen, db`effects, db`utStatus, db`openManagers, db`nextManager
      ensures db.Valid()
      ensures r.Failure? <==> old(ManagerUnavailable(o))
      ensures r.Failure? ==> r.error == FactoryUnavailable
      ensures r.Success? ==> r.value == ProcessInstancesOf(old(db.processLogs), processId)
      ensures Released(o, r.Failure?, false)
    {
      var begun := Begin(o, false);
      if begun.Failure? {
        return Failure(begun.error);
      }
      var (em, newTx) := begun.value;
      r := Success(ProcessInstancesOf(db.processLogs, processId));
      CloseEntityManager(em, newTx, o);
    }

    /** findActiveProcessInstances(processId); the query runs on a second manager. */
    method FindActiveProcessInstances(processId: string, o: Outcomes) returns (r: Result<seq<ProcessInstanceLog>, ServiceError>)
      requires db.Valid()
      modifies this`emfOpen, db`effects, db`utStatus, db`openManagers, db`nextManager
      ensures db.Valid()
      ensures r.Failure? <==> old(ManagerUnavailable(o))
      ensures r.Failure? ==> r.error == FactoryUnavailable
      ensures r.Success? ==> r.value == ActiveProcessInstancesOf(old(db.processLogs), processId)
      ensures Released(o, r.Failure?, true)
    {
      var begun := Begin(o, true);
      if begun.Failure? {
        return Failure(begun.error);
      }
      var (em, newTx) := begun.value;
      r := Success(ActiveProcessInstancesOf(db.processLogs, processId));
      CloseEntityManager(em, newTx, o);
    }

    /** findProcessInstance(processInstanceId): the single row, none (null), or
        NonUniqueResultException; the unit of work is released on every path. */
    method FindProcessInstance(processInstanceId: int, o: Outcomes) returns (r: Result<Option<ProcessInstanceLog>, ServiceError>)
      requires db.Valid()
      modifies this`emfOpen, db`effects, db`utStatus, db`openManagers, db`nextManager
      ensures db.Valid()
      ensures old(ManagerUnavailable(o)) ==> r == Failure(FactoryUnavailable)
      ensures !old(ManagerUnavailable(o)) ==>
                match ProcessInstanceById(old(db.processLogs), processInstanceId)
                case NoResult => r == Success(None)
                case Single(log) => r == Success(Some(log))
                case NonUnique => r == Failure(NonUniqueResult)
      ensures Released(o, old(ManagerUnavailable(o)), true)
    {
      var begun := Begin(o, true);
      if begun.Failure? {
        return Failure(begun.error);
      }
      var (em, newTx) := begun.value;
      match ProcessInstanceById(db.processLogs, processInstanceId) {
        case NoResult => r := Success(None);
        case Single(log) => r := Success(Some(log));
        case NonUnique => r := Failure(NonUniqueResult);
      }
      CloseEntityManager(em, newTx, o);
    }

    /** findSubProcessInstances(processInstanceId); the query runs on a second manager. */
    method FindSubProcessInstances(processInstanceId: int, o: Outcomes) returns (r: Result<seq<ProcessInstanceLog>, ServiceError>)
      requires db.Valid()
      modifies this`emfOpen, db`effects, db`utStatus, db`openManagers, db`nextManager
      ensures db.Valid()
      ensures r.Failure? <==> old(ManagerUnavailable(o))
      ensures r.Failure? ==> r.error == FactoryUnavailable
      ensures r.Success? ==> r.value == SubProcessInstancesOf(old(db.processLogs), processInstanceId)
      ensures Released(o, r.Failure?, true)
    {
      var begun := Begin(o, true);
      if begun.Failure? {
        return Failure(begun.error);
      }
      var (em, newTx) := begun.value;
      r := Success(SubProcessInstancesOf(db.processLogs, processInstanceId));
      CloseEntityManager(em, newTx, o);
    }

    /** findNodeInstances(processInstanceId); the query runs on a second manager. */
    method FindNodeInstances(processInstanceId: int, o: Outcomes) returns (r: Result<seq<NodeInstanceLog>, ServiceError>)
      requires db.Valid()
      modifies this`emfOpen, db`effects, db`utStatus, db`openManagers, db`nextManager
      ensures db.Valid()
      ensures r.Failure? <==> old(ManagerUnavailable(o))
      ensures r.Failure? ==> r.error == FactoryUnavailable
      ensures r.Success? ==> r.value == NodeInstancesOf(old(db.nodeLogs), processInstanceId)
      ensures Released(o, r.Failure?, true)
    {
      var begun := Begin(o, true);
      if begun.Failure? {
        return Failure(begun.error);
      }
      var (em, newTx) := begun.value;
      r := Success(NodeInstancesOf(db.nodeLogs, processInstanceId));
      CloseEntityManager(em, newTx, o);
    }

    /** findNodeInstances(processInstanceId, nodeId); the query runs on a second manager. */
    method FindNodeInstancesOfNode(processInstanceId: int, nodeId: string, o: Outcomes) returns (r: Result<seq<NodeInstanceLog>, ServiceError>)
      requires db.Valid()
      modifies this`emfOpen, db`effects, db`utStatus, db`openManagers, db`nextManager
      ensures db.Valid()
      ensures r.Failure? <==> old(ManagerUnavailable(o))
      ensures r.Failure? ==> r.error == FactoryUnavailable
      ensures r.Success? ==> r.value == NodeInstancesOfNode(old(db.nodeLogs), processInstanceId, nodeId)
      ensures Released(o, r.Failure?, true)
    {
      var begun := Begin(o, true);
      if begun.Failure? {
        return Failure(begun.error);
      }
      var (em, newTx) := begun.value;
      r := Success(NodeInstancesOfNode(db.nodeLogs, processInstanceId, nodeId));
      CloseEntityManager(em, newTx, o);
    }

    /** findVariableInstances(processInstanceId); the query runs on a second manager. */
    method FindVariableInstances(processInstanceId: int, o: Outcomes) returns (r: Result<seq<VariableInstanceLog>, ServiceError>)
      requires db.Valid()
      modifies this`emfOpen, db`effects, db`utStatus, db`openManagers, db`nextManager
      ensures db.Valid()
      ensures r.Failure? <==> old(ManagerUnavailable(o))
      ensures r.Failure? ==> r.error == FactoryUnavailable
      ensures r.Success? ==> r.value == VariableInstancesOf(old(db.variableLogs), processInstanceId)
      ensures Released(o, r.Failure?, true)
    {
      var begun := Begin(o, true);
      if begun.Failure? {
        return Failure(begun.error);
      }
      var (em, newTx) := begun.value;
      r := Success(VariableInstancesOf(db.variableLogs, processInstanceId));
      CloseEntityManager(em, newTx, o);
    }

    /** findVariableInstances(processInstanceId, variableId) */
    method FindVariableInstancesOfVariable(processInstanceId: int, variableId: string, o: Outcomes)
      returns (r: Result<seq<VariableInstanceLog>, ServiceError>)
      requires db.Valid()
      modifies this`emfOpen, db`effects, db`utStatus, db`openManagers, db`nextManager
      ensures db.Valid()
      ensures r.Failure? <==> old(ManagerUnavailable(o))
      ensures r.Failure? ==> r.error == FactoryUnavailable
      ensures r.Success? ==> r.value == VariableInstancesOfVariable(old(db.variableLogs), processInstanceId, variableId)
      ensures Released(o, r.Failure?, false)
    {
      var begun := Begin(o, false);
      if begun.Failure? {
        return Failure(begun.error);
      }
      var (em, newTx) := begun.value;
      r := Success(VariableInstancesOfVariable(db.variableLogs, processInstanceId, variableId));
      CloseEntityManager(em, newTx, o);
    }

    /** findVariableInstancesByName(variableId, onlyActiveProcesses) */
    method FindVariableInstancesByName(variableId: string, onlyActive: bool, o: Outcomes)
      returns (r: Result<seq<VariableInstanceLog>, ServiceError>)
      requires db.Valid()
      modifies this`emfOpen, db`effects, db`utStatus, db`openManagers, db`nextManager
      ensures db.Valid()
      ensures r.Failure? <==> old(ManagerUnavailable(o))
      ensures r.Failure? ==> r.error == FactoryUnavailable
      ensures r.Success? ==> r.value == VariableInstancesByName(old(db.variableLogs), old(db.processLogs), variableId, onlyActive)
      ensures Released(o, r.Failure?, false)
    {
      var begun := Begin(o, false);
      if begun.Failure? {
        return Failure(begun.error);
      }
      var (em, newTx) := begun.value;
      assert db.variableLogs == old(db.variableLogs) && db.processLogs == old(db.processLogs);
      r := Success(VariableInstancesByName(db.variableLogs, db.processLogs, variableId, onlyActive));
      CloseEntityManager(em, newTx, o);
    }

    /** findVariableInstancesByNameAndValue(variableId, value, onlyActiveProcesses) */
    method FindVariableInstancesByNameAndValue(variableId: string, value: string, onlyActive: bool, o: Outcomes)
      returns (r: Result<seq<VariableInstanceLog>, ServiceError>)
      requires db.Valid()
      modifies this`emfOpen, db`effects, db`utStatus, db`openManagers, db`nextManager
      ensures db.Valid()
      ensures r.Failure? <==> old(ManagerUnavailable(o))
      ensures r.Failure? ==> r.error == FactoryUnavailable
      ensures r.Success? ==>
                r.value == VariableInstancesByNameAndValue(old(db.variableLogs), old(db.processLogs), variableId, value, onlyActive)
      ensures Released(o, r.Failure?, false)
    {
      var begun := Begin(o, false);
      if begun.Failure? {
        return Failure(begun.error);
      }
      var (em, newTx) := begun.value;
      assert db.variableLogs == old(db.variableLogs) && db.processLogs == old(db.processLogs);
      r := Success(VariableInstancesByNameAndValue(db.variableLogs, db.processLogs, variableId, value, onlyActive));
      CloseEntityManager(em, newTx, o);
    }

    /** The body of clear(): reads each table and removes its rows one at a time. */
    method RemoveEveryRow()
      modifies db`processLogs, db`nodeLogs, db`variableLogs
      ensures db.processLogs == [] && db.nodeLogs == [] && db.variableLogs == []
    {
      var processInstances := db.processLogs;
      var i := 0;
      while i < |processInstances|
        modifies db`processLogs
        invariant 0 <= i <= |processInstances|
        invariant db.processLogs == processInstances[i..]
      {
        db.processLogs := RemoveFirst(db.processLogs, processInstances[i]);
        i := i + 1;
      }
      var nodeInstances := db.nodeLogs;
      i := 0;
      while i < |nodeInstances|
        modifies db`nodeLogs
        invariant 0 <= i <= |nodeInstances|
        invariant db.nodeLogs == nodeInstances[i..]
      {
        db.nodeLogs := RemoveFirst(db.nodeLogs, nodeInstances[i]);
        i := i + 1;
      }
      var variableInstances := db.variableLogs;
      i := 0;
      while i < |variableInstances|
        modifies db`variableLogs
        invariant 0 <= i <= |variableInstances|
        invariant db.variableLogs == variableInstances[i..]
      {
        db.variableLogs := RemoveFirst(db.variableLogs, variableInstances[i]);
        i := i + 1;
      }
    }

    /** clear(): removes every row of the three tables, one row at a time. */
    method Clear(o: Outcomes) returns (r: Result<(), ServiceError>)
      requires db.Valid()
      modifies this`emfOpen, db`effects, db`utStatus, db`openManagers, db`nextManager
      modifies db`processLogs, db`nodeLogs, db`variableLogs
      ensures db.Valid()
      ensures r.Failure? <==> old(ManagerUnavailable(o))
      ensures r.Failure? ==> r.error == FactoryUnavailable && unchanged(db)
      ensures r.Success? ==> db.processLogs == [] && db.nodeLogs == [] && db.variableLogs == []
      ensures Released(o, r.Failure?, false)
    {
      var begun := Begin(o, false);
      if begun.Failure? {
        return Failure(begun.error);
      }
      var (em, newTx) := begun.value;

      RemoveEveryRow();
      r := Success(());
      CloseEntityManager(em, newTx, o);
    }
  }
}
