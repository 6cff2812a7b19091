/** The unit-of-work bookkeeping of the JPA audit service: before each query the
    service decides whether to start its own transaction (`joinTransaction`),
    and after it whether to flush, clear and close the entity manager and commit
    (`closeEntityManager`). The decision reads three configuration entries of
    the environment and the status of the JTA UserTransaction.

    This module states both decisions as functions of their inputs; the
    service's methods are proved to carry them out step by step. */
module Bookkeeping {
  import opened Sequences

  /** javax.transaction.Status.STATUS_ACTIVE */
  const StatusActive: int := 0
  /** javax.transaction.Status.STATUS_NO_TRANSACTION */
  const StatusNoTransaction: int := 6

  /** The entries of the service's Environment that the bookkeeping reads. A missing
      entry is `None`; `hasTransactionManager` says whether the TRANSACTION_MANAGER
      entry holds a TransactionManager. */
  datatype Environment = Environment(
    isJtaTransaction: Option<bool>,
    isSharedEntityManager: Option<bool>,
    hasTransactionManager: bool)

  /** What the service cannot see in advance: the answers of the collaborators it calls. */
  datatype Outcomes = Outcomes(
    factoryCreated: bool,     // Persistence.createEntityManagerFactory returns instead of throwing
    tmBeginResult: bool,      // the value TransactionManager.begin() returns
    utBeginSucceeds: bool,    // UserTransaction.begin() returns instead of throwing
    utCommitSucceeds: bool)   // UserTransaction.commit() returns instead of throwing

  /** The observable steps of one unit of work, in the order they happen. */
  datatype Effect =
    | TmBegin                       // transactionManager.begin()
    | TmCommit(newTx: bool)         // transactionManager.commit(newTx)
    | UtBegin(succeeded: bool)      // ut.begin(), and whether it returned normally
    | UtCommit(succeeded: bool)     // lookup of the UserTransaction and ut.commit()
    | EmJoin                        // em.joinTransaction()
    | EmFlush                       // em.flush()
    | EmClear                       // em.clear()
    | EmClose                       // em.close()

  /** IS_JTA_TRANSACTION, true when the environment or the entry is missing. */
  function IsJta(env: Option<Environment>): (r: bool)
    ensures !r <==> env.Some? && env.value.isJtaTransaction == Some(false)
  {
    env.None? || env.value.isJtaTransaction.None? || env.value.isJtaTransaction.value
  }

  /** IS_SHARED_ENTITY_MANAGER, false when the environment or the entry is missing. */
  function IsSharedEntityManager(env: Option<Environment>): (r: bool)
    ensures r <==> env.Some? && env.value.isSharedEntityManager == Some(true)
  {
    env.Some? && env.value.isSharedEntityManager.Some? && env.value.isSharedEntityManager.value
  }

  /** Whether the TRANSACTION_MANAGER entry holds a TransactionManager; never without an environment. */
  function HasTransactionManager(env: Option<Environment>): (r: bool)
    ensures r ==> env.Some?
  {
    env.Some? && env.value.hasTransactionManager
  }

  /** What a step of the bookkeeping did: whether the service began a transaction of
      its own, the effects in order, and the UserTransaction status afterwards. */
  datatype Step = Step(newTx: bool, effects: seq<Effect>, status: int)

  /** joinTransaction: begin through the TransactionManager when there is one,
      otherwise begin the UserTransaction only if none is running; then join the
      entity manager when the environment says JTA. A UserTransaction that is not
      bound, or whose begin throws, leaves `newTx` false. */
  function Join(env: Option<Environment>, utBound: bool, status: int, o: Outcomes): (r: Step)
    ensures EmJoin in r.effects <==> IsJta(env)
    ensures IsJta(env) ==> r.effects[|r.effects| - 1] == EmJoin
    ensures r.newTx ==> (HasTransactionManager(env) && o.tmBeginResult)
                        || (utBound && status == StatusNoTransaction && o.utBeginSucceeds)
    ensures r.status != status ==> r.newTx && status == StatusNoTransaction && r.status == StatusActive
  {
    var joined := if IsJta(env) then [EmJoin] else [];
    if HasTransactionManager(env) then
      Step(o.tmBeginResult, [TmBegin] + joined, status)
    else if utBound && status == StatusNoTransaction then
      Step(o.utBeginSucceeds, [UtBegin(o.utBeginSucceeds)] + joined,
           if o.utBeginSucceeds then StatusActive else status)
    else
      Step(false, joined, status)
  }

  /** closeEntityManager: outside shared mode, flush, clear and close the entity
      manager, then commit through the TransactionManager (passing `newTx`), or
      commit the UserTransaction only when `newTx`. A failing commit is swallowed
      and leaves the status as it was. */
  function Close(env: Option<Environment>, utBound: bool, status: int, newTx: bool, o: Outcomes): (r: Step)
    ensures IsSharedEntityManager(env) <==> r.effects == []
    ensures !IsSharedEntityManager(env) ==> |r.effects| >= 3 && r.effects[..3] == [EmFlush, EmClear, EmClose]
    ensures r.status != status ==> newTx && !IsSharedEntityManager(env) && r.status == StatusNoTransaction
  {
    if IsSharedEntityManager(env) then
      Step(newTx, [], status)
    else if HasTransactionManager(env) then
      Step(newTx, [EmFlush, EmClear, EmClose, TmCommit(newTx)], status)
    else if newTx then
      var committed := utBound && o.utCommitSucceeds;
      Step(newTx, [EmFlush, EmClear, EmClose, UtCommit(committed)],
           if committed then StatusNoTransaction else status)
    else
      Step(newTx, [EmFlush, EmClear, EmClose], status)
  }

  /** One whole unit of work around a query: join, then close with the `newTx` that join returned. */
  function UnitOfWork(env: Option<Environment>, utBound: bool, status: int, o: Outcomes): (r: Step)
    ensures !IsSharedEntityManager(env) && o.utCommitSucceeds ==> r.status == status
    ensures IsSharedEntityManager(env) && r.newTx && !HasTransactionManager(env) ==> r.status == StatusActive
  {
    var join := Join(env, utBound, status, o);
    var close := Close(env, utBound, join.status, join.newTx, o);
    Step(join.newTx, join.effects + close.effects, close.status)
  }

  // ---------------------------------------------------------------------------
  // Properties of the bookkeeping

  /** With a TransactionManager, `newTx` is exactly what its begin() returned, and
      outside shared mode the unit of work ends by passing that value to commit(). */
  lemma TransactionManagerDecides(env: Option<Environment>, utBound: bool, status: int, o: Outcomes)
    requires HasTransactionManager(env)
    ensures Join(env, utBound, status, o).newTx == o.tmBeginResult
    ensures var w := UnitOfWork(env, utBound, status, o);
      && (!IsSharedEntityManager(env) ==> w.effects[|w.effects| - 1] == TmCommit(o.tmBeginResult))
      && w.status == status
      && (forall e :: e in w.effects ==> !e.UtBegin? && !e.UtCommit?)
  {
  }

  /** Without a TransactionManager the service begins a transaction of its own exactly
      when the UserTransaction is bound, no transaction is running, and begin() succeeds. */
  lemma UserTransactionDecides(env: Option<Environment>, utBound: bool, status: int, o: Outcomes)
    requires !HasTransactionManager(env)
    ensures Join(env, utBound, status, o).newTx <==> utBound && status == StatusNoTransaction && o.utBeginSucceeds
  {
  }

  /** A transaction that was already running is neither begun nor committed by the
      service, and is still running afterwards. */
  lemma ExistingTransactionUntouched(env: Option<Environment>, utBound: bool, status: int, o: Outcomes)
    requires !HasTransactionManager(env)
    requires status != StatusNoTransaction
    ensures var w := UnitOfWork(env, utBound, status, o);
      && !w.newTx
      && w.status == status
      && forall e :: e in w.effects ==> !e.UtBegin? && !e.UtCommit?
  {
  }

  /** The service commits only a transaction it began itself: a commit of the
      UserTransaction is always preceded by a successful begin in the same unit of work. */
  lemma CommitsOnlyWhatItBegan(env: Option<Environment>, utBound: bool, status: int, o: Outcomes)
    ensures var w := UnitOfWork(env, utBound, status, o);
      forall k :: 0 <= k < |w.effects| && w.effects[k].UtCommit? ==>
        exists b :: 0 <= b < k && w.effects[b] == UtBegin(true)
  {
    var join := Join(env, utBound, status, o);
    var close := Close(env, utBound, join.status, join.newTx, o);
    var w := UnitOfWork(env, utBound, status, o);
    forall k | 0 <= k < |w.effects| && w.effects[k].UtCommit?
      ensures exists b :: 0 <= b < k && w.effects[b] == UtBegin(true)
    {
      assert k >= |join.effects|;
      assert w.effects[0] == UtBegin(true);
    }
  }

  /** A unit of work is never committed twice: at most one of its effects is a
      commit, through either the TransactionManager or the UserTransaction. */
  lemma AtMostOneCommit(env: Option<Environment>, utBound: bool, status: int, o: Outcomes)
    ensures var w := UnitOfWork(env, utBound, status, o);
      forall i, j :: 0 <= i < j < |w.effects| ==>
        !((w.effects[i].TmCommit? || w.effects[i].UtCommit?) && (w.effects[j].TmCommit? || w.effects[j].UtCommit?))
  {
    var join := Join(env, utBound, status, o);
    var w := UnitOfWork(env, utBound, status, o);
    forall k | 0 <= k < |w.effects| && (w.effects[k].TmCommit? || w.effects[k].UtCommit?)
      ensures k == |w.effects| - 1
    {
      assert k >= |join.effects|;
    }
  }

  /** In shared mode closing does nothing: no flush, clear, close or commit, and the
      status stays as it was. */
  lemma SharedModeCloseIsNoop(env: Option<Environment>, utBound: bool, status: int, newTx: bool, o: Outcomes)
    requires IsSharedEntityManager(env)
    ensures Close(env, utBound, status, newTx, o).effects == []
    ensures Close(env, utBound, status, newTx, o).status == status
  {
  }

  /** Outside shared mode, a transaction the service began through a bound
      UserTransaction is committed at the end of the unit of work, and when the
      commit succeeds no transaction is left running. */
  lemma OwnTransactionCommitted(env: Option<Environment>, utBound: bool, status: int, o: Outcomes)
    requires !HasTransactionManager(env) && !IsSharedEntityManager(env)
    requires Join(env, utBound, status, o).newTx
    ensures var w := UnitOfWork(env, utBound, status, o);
      && UtCommit(o.utCommitSucceeds) in w.effects
      && (o.utCommitSucceeds ==> w.status == StatusNoTransaction)
  {
  }
}
