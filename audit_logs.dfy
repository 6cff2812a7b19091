/** The three audit-log tables of the jBPM audit service and the read queries
    the service runs over them. Each query of the service is a JPQL statement
    with a WHERE clause and, for node and variable logs, an ORDER BY; here each
    one is a filter over the table followed by a sort on the ORDER BY key. */
module AuditLogs {
  import opened Sequences

  /** One row of the ProcessInstanceLog table: `end` is null while the instance runs. */
  datatype ProcessInstanceLog = ProcessInstanceLog(
    id: int,
    processInstanceId: int,
    processId: string,
    parentProcessInstanceId: Option<int>,
    start: int,
    end: Option<int>)

  datatype NodeLogType = Enter | Exit

  /** One row of the NodeInstanceLog table. */
  datatype NodeInstanceLog = NodeInstanceLog(
    id: int,
    processInstanceId: int,
    nodeId: string,
    nodeName: string,
    logType: NodeLogType,
    date: int)

  /** One row of the VariableInstanceLog table; `value` is the serialised value. */
  datatype VariableInstanceLog = VariableInstanceLog(
    id: int,
    processInstanceId: int,
    variableId: string,
    value: string,
    date: int)

  /** `ORDER BY date, id` */
  function NodeKey(n: NodeInstanceLog): (int, int) { (n.date, n.id) }

  /** `ORDER BY date`: the second component is constant, so only the date orders. */
  function VariableKey(v: VariableInstanceLog): (int, int) { (v.date, 0) }

  /** The outcome of `getSingleResult`: no row, exactly one row, or more than one. */
  datatype SingleResult = NoResult | Single(log: ProcessInstanceLog) | NonUnique

  // ---------------------------------------------------------------------------
  // Process-instance queries

  /** FROM ProcessInstanceLog p WHERE p.processId = :processId */
  function ProcessInstancesOf(t: seq<ProcessInstanceLog>, processId: string): (r: seq<ProcessInstanceLog>)
    ensures forall p :: multiset(r)[p] == if p.processId == processId then multiset(t)[p] else 0
  {
    Filter(t, (p: ProcessInstanceLog) => p.processId == processId)
  }

  /** FROM ProcessInstanceLog p WHERE p.processId = :processId AND p.end is null */
  function ActiveProcessInstancesOf(t: seq<ProcessInstanceLog>, processId: string): (r: seq<ProcessInstanceLog>)
    ensures forall p :: multiset(r)[p] == if p.processId == processId && p.end.None? then multiset(t)[p] else 0
  {
    Filter(t, (p: ProcessInstanceLog) => p.processId == processId && p.end.None?)
  }

  /** Some row of `t` describes process instance `id`. */
  ghost predicate HasRowFor(t: seq<ProcessInstanceLog>, id: int)
  {
    exists i :: 0 <= i < |t| && t[i].processInstanceId == id
  }

  /** Two different rows of `t` describe process instance `id`. */
  ghost predicate HasTwoRowsFor(t: seq<ProcessInstanceLog>, id: int)
  {
    exists i, j :: 0 <= i < j < |t| && t[i].processInstanceId == id && t[j].processInstanceId == id
  }

  /** FROM ProcessInstanceLog p WHERE p.processInstanceId = :processInstanceId, read with
      getSingleResult: no row, the one row, or NonUniqueResultException. */
  function ProcessInstanceById(t: seq<ProcessInstanceLog>, processInstanceId: int): (r: SingleResult)
    ensures r.NoResult? <==> !HasRowFor(t, processInstanceId)
    ensures r.NonUnique? <==> HasTwoRowsFor(t, processInstanceId)
    ensures r.Single? ==> r.log in t && r.log.processInstanceId == processInstanceId
  {
    if t == [] then NoResult
    else
      var rest := ProcessInstanceById(t[1..], processInstanceId);
      RowsOfTail(t, processInstanceId);
      if t[0].processInstanceId != processInstanceId then rest
      else if rest.NoResult? then Single(t[0])
      else NonUnique
  }

  /** How the rows for `id` in `t` split between its head and its tail. */
  lemma RowsOfTail(t: seq<ProcessInstanceLog>, id: int)
    requires t != []
    ensures HasRowFor(t, id) <==> t[0].processInstanceId == id || HasRowFor(t[1..], id)
    ensures HasTwoRowsFor(t, id) <==>
              (t[0].processInstanceId == id && HasRowFor(t[1..], id)) || HasTwoRowsFor(t[1..], id)
  {
    if HasRowFor(t[1..], id) {
      var i :| 0 <= i < |t[1..]| && t[1..][i].processInstanceId == id;
      assert t[i + 1] == t[1..][i];
    }
    if HasRowFor(t, id) && t[0].processInstanceId != id {
      var i :| 0 <= i < |t| && t[i].processInstanceId == id;
      assert t[1..][i - 1] == t[i];
    }
    if HasTwoRowsFor(t[1..], id) {
      var i, j :| 0 <= i < j < |t[1..]| && t[1..][i].processInstanceId == id && t[1..][j].processInstanceId == id;
      assert t[i + 1] == t[1..][i] && t[j + 1] == t[1..][j];
    }
    if HasTwoRowsFor(t, id) {
      var i, j :| 0 <= i < j < |t| && t[i].processInstanceId == id && t[j].processInstanceId == id;
      if i == 0 {
        assert t[1..][j - 1] == t[j];
      } else {
        assert t[1..][i - 1] == t[i] && t[1..][j - 1] == t[j];
      }
    }
  }

  /** FROM ProcessInstanceLog p WHERE p.parentProcessInstanceId = :processInstanceId */
  function SubProcessInstancesOf(t: seq<ProcessInstanceLog>, processInstanceId: int): (r: seq<ProcessInstanceLog>)
    ensures forall p :: multiset(r)[p] ==
              if p.parentProcessInstanceId == Some(processInstanceId) then multiset(t)[p] else 0
  {
    Filter(t, (p: ProcessInstanceLog) => p.parentProcessInstanceId == Some(processInstanceId))
  }

  /** The active instances of a process are some of its instances, with no row more often. */
  lemma ActiveWithinAll(t: seq<ProcessInstanceLog>, processId: string)
    ensures multiset(ActiveProcessInstancesOf(t, processId)) <= multiset(ProcessInstancesOf(t, processId))
    ensures forall p :: p in ActiveProcessInstancesOf(t, processId) ==> p in ProcessInstancesOf(t, processId) && p.end.None?
  {
    var a, b := ActiveProcessInstancesOf(t, processId), ProcessInstancesOf(t, processId);
    forall p ensures multiset(a)[p] <= multiset(b)[p] {
    }
    forall p | p in a ensures p in b && p.end.None? {
      assert p in multiset(a);
    }
  }

  // ---------------------------------------------------------------------------
  // Node-instance queries

  /** FROM NodeInstanceLog n WHERE n.processInstanceId = :processInstanceId ORDER BY date,id */
  function NodeInstancesOf(t: seq<NodeInstanceLog>, processInstanceId: int): (r: seq<NodeInstanceLog>)
    ensures forall n :: multiset(r)[n] == if n.processInstanceId == processInstanceId then multiset(t)[n] else 0
    ensures forall i, j :: 0 <= i < j < |r| ==>
              r[i].date < r[j].date || (r[i].date == r[j].date && r[i].id <= r[j].id)
  {
    SortByKey(Filter(t, (n: NodeInstanceLog) => n.processInstanceId == processInstanceId), NodeKey)
  }

  /** FROM NodeInstanceLog n WHERE n.processInstanceId = :processInstanceId AND n.nodeId = :nodeId ORDER BY date,id */
  function NodeInstancesOfNode(t: seq<NodeInstanceLog>, processInstanceId: int, nodeId: string): (r: seq<NodeInstanceLog>)
    ensures forall n :: multiset(r)[n] ==
              if n.processInstanceId == processInstanceId && n.nodeId == nodeId then multiset(t)[n] else 0
    ensures forall i, j :: 0 <= i < j < |r| ==>
              r[i].date < r[j].date || (r[i].date == r[j].date && r[i].id <= r[j].id)
  {
    SortByKey(Filter(t, (n: NodeInstanceLog) => n.processInstanceId == processInstanceId && n.nodeId == nodeId), NodeKey)
  }

  // ---------------------------------------------------------------------------
  // Variable-instance queries

  /** FROM VariableInstanceLog v WHERE v.processInstanceId = :processInstanceId ORDER BY date */
  function VariableInstancesOf(t: seq<VariableInstanceLog>, processInstanceId: int): (r: seq<VariableInstanceLog>)
    ensures forall v :: multiset(r)[v] == if v.processInstanceId == processInstanceId then multiset(t)[v] else 0
    ensures forall i, j :: 0 <= i < j < |r| ==> r[i].date <= r[j].date
  {
    SortByKey(Filter(t, (v: VariableInstanceLog) => v.processInstanceId == processInstanceId), VariableKey)
  }

  /** FROM VariableInstanceLog v WHERE v.processInstanceId = :processInstanceId AND v.variableId = :variableId ORDER BY date */
  function VariableInstancesOfVariable(t: seq<VariableInstanceLog>, processInstanceId: int, variableId: string): (r: seq<VariableInstanceLog>)
    ensures forall v :: multiset(r)[v] ==
              if v.processInstanceId == processInstanceId && v.variableId == variableId then multiset(t)[v] else 0
    ensures forall i, j :: 0 <= i < j < |r| ==> r[i].date <= r[j].date
  {
    SortByKey(Filter(t, (v: VariableInstanceLog) => v.processInstanceId == processInstanceId && v.variableId == variableId), VariableKey)
  }

  /** Two logged updates of one variable come back oldest first. */
  lemma OldestFirst(t: seq<VariableInstanceLog>, processInstanceId: int, variableId: string, older: VariableInstanceLog, newer: VariableInstanceLog)
    requires older in t && newer in t
    requires older.processInstanceId == newer.processInstanceId == processInstanceId
    requires older.variableId == newer.variableId == variableId
    requires older.date < newer.date
    ensures older in VariableInstancesOfVariable(t, processInstanceId, variableId)
    ensures newer in VariableInstancesOfVariable(t, processInstanceId, variableId)
    ensures var r := VariableInstancesOfVariable(t, processInstanceId, variableId);
              forall i, j :: 0 <= i < |r| && 0 <= j < |r| && r[i] == older && r[j] == newer ==> i < j
  {
    var r := VariableInstancesOfVariable(t, processInstanceId, variableId);
    assert older in r by {
      assert multiset(t)[older] > 0;
      assert multiset(r)[older] > 0;
    }
    assert newer in r by {
      assert multiset(t)[newer] > 0;
      assert multiset(r)[newer] > 0;
    }
    EarlierDateFirst(r, older, newer);
  }

  /** In a date-ordered result, a row with an earlier date sits before a row with a later one. */
  lemma EarlierDateFirst(r: seq<VariableInstanceLog>, older: VariableInstanceLog, newer: VariableInstanceLog)
    requires forall i, j :: 0 <= i < j < |r| ==> r[i].date <= r[j].date
    requires older.date < newer.date
    ensures forall i, j :: 0 <= i < |r| && 0 <= j < |r| && r[i] == older && r[j] == newer ==> i < j
  {
  }

  // ---------------------------------------------------------------------------
  // Variable queries by name, optionally joined with running process instances

  /** How many ProcessInstanceLog rows for `processInstanceId` have `end is null`. */
  function ActiveRows(pt: seq<ProcessInstanceLog>, processInstanceId: int): (r: nat)
    ensures r <= |pt|
    ensures r == 0 <==> forall i :: 0 <= i < |pt| ==> pt[i].processInstanceId != processInstanceId || pt[i].end.Some?
  {
    if pt == [] then 0
    else (if pt[0].processInstanceId == processInstanceId && pt[0].end.None? then 1 else 0)
         + ActiveRows(pt[1..], processInstanceId)
  }

  /** FROM VariableInstanceLog v, ProcessInstanceLog p WHERE v.processInstanceId = p.processInstanceId
      AND p.end is null: every variable row is paired with each running process-instance row
      of its instance, so it appears once per such row. */
  function ActiveJoin(vt: seq<VariableInstanceLog>, pt: seq<ProcessInstanceLog>): (r: seq<VariableInstanceLog>)
    ensures forall v :: multiset(r)[v] == multiset(vt)[v] * ActiveRows(pt, v.processInstanceId)
  {
    if vt == [] then []
    else
      var rest := ActiveJoin(vt[1..], pt);
      var r := Repeat(vt[0], ActiveRows(pt, vt[0].processInstanceId)) + rest;
      assert forall v :: multiset(r)[v] == multiset(vt)[v] * ActiveRows(pt, v.processInstanceId) by {
        forall v ensures multiset(r)[v] == multiset(vt)[v] * ActiveRows(pt, v.processInstanceId) {
          ActiveJoinStep(vt, pt, rest, r, v);
        }
      }
      r
  }

  /** One step of the join, for one row `v`: the head row is repeated once per
      running row of its instance. */
  lemma ActiveJoinStep(vt: seq<VariableInstanceLog>, pt: seq<ProcessInstanceLog>,
                       rest: seq<VariableInstanceLog>, r: seq<VariableInstanceLog>, v: VariableInstanceLog)
    requires vt != []
    requires multiset(rest)[v] == multiset(vt[1..])[v] * ActiveRows(pt, v.processInstanceId)
    requires r == Repeat(vt[0], ActiveRows(pt, vt[0].processInstanceId)) + rest
    ensures multiset(r)[v] == multiset(vt)[v] * ActiveRows(pt, v.processInstanceId)
  {
    assert vt == [vt[0]] + vt[1..];
    var k, n := multiset(vt[1..])[v], ActiveRows(pt, v.processInstanceId);
    var repeated := multiset(Repeat(vt[0], ActiveRows(pt, vt[0].processInstanceId)))[v];
    assert multiset(r)[v] == repeated + k * n;
    if v == vt[0] {
      assert repeated == n;
      assert multiset(vt)[v] == k + 1;
      NextMultiple(k, n);
    } else {
      assert repeated == 0;
      assert multiset(vt)[v] == k;
    }
  }

  /** The distributivity step of ActiveJoinStep: one more copy of the row adds `n` more rows. */
  lemma NextMultiple(k: nat, n: nat)
    ensures (k + 1) * n == n + k * n
  {
  }

  /** A product of two counts is positive exactly when both are. */
  lemma PositiveProduct(k: nat, n: nat)
    ensures k * n > 0 <==> k > 0 && n > 0
  {
  }

  /** The rows of the VariableInstanceLog table that satisfy `matches`, sorted by date;
      with `onlyActive`, joined with the running process instances first. */
  function VariableQuery(vt: seq<VariableInstanceLog>, pt: seq<ProcessInstanceLog>,
                         matches: VariableInstanceLog -> bool, onlyActive: bool): (r: seq<VariableInstanceLog>)
    ensures forall v :: multiset(r)[v] ==
              if !matches(v) then 0
              else if onlyActive then multiset(vt)[v] * ActiveRows(pt, v.processInstanceId)
              else multiset(vt)[v]
    ensures forall i, j :: 0 <= i < j < |r| ==> r[i].date <= r[j].date
  {
    var rows := Filter(vt, matches);
    SortByKey(if onlyActive then ActiveJoin(rows, pt) else rows, VariableKey)
  }

  /** findVariableInstancesByName: WHERE v.variableId = :variableId, optionally only for running instances. */
  function VariableInstancesByName(vt: seq<VariableInstanceLog>, pt: seq<ProcessInstanceLog>,
                                   variableId: string, onlyActive: bool): (r: seq<VariableInstanceLog>)
    ensures forall v :: multiset(r)[v] ==
              if v.variableId != variableId then 0
              else if onlyActive then multiset(vt)[v] * ActiveRows(pt, v.processInstanceId)
              else multiset(vt)[v]
    ensures forall i, j :: 0 <= i < j < |r| ==> r[i].date <= r[j].date
  {
    VariableQuery(vt, pt, (v: VariableInstanceLog) => v.variableId == variableId, onlyActive)
  }

  /** findVariableInstancesByNameAndValue: WHERE v.variableId = :variableId AND v.value = :value. */
  function VariableInstancesByNameAndValue(vt: seq<VariableInstanceLog>, pt: seq<ProcessInstanceLog>,
                                           variableId: string, value: string, onlyActive: bool): (r: seq<VariableInstanceLog>)
    ensures forall v :: multiset(r)[v] ==
              if v.variableId != variableId || v.value != value then 0
              else if onlyActive then multiset(vt)[v] * ActiveRows(pt, v.processInstanceId)
              else multiset(vt)[v]
    ensures forall i, j :: 0 <= i < j < |r| ==> r[i].date <= r[j].date
  {
    VariableQuery(vt, pt, (v: VariableInstanceLog) => v.variableId == variableId && v.value == value, onlyActive)
  }

  /** A positive count of running rows is witnessed by a running row. */
  lemma {:induction false} RunningRowExists(pt: seq<ProcessInstanceLog>, processInstanceId: int)
    requires ActiveRows(pt, processInstanceId) > 0
    ensures exists i :: 0 <= i < |pt| && pt[i].processInstanceId == processInstanceId && pt[i].end.None?
  {
    if !(pt[0].processInstanceId == processInstanceId && pt[0].end.None?) {
      RunningRowExists(pt[1..], processInstanceId);
      var i :| 0 <= i < |pt[1..]| && pt[1..][i].processInstanceId == processInstanceId && pt[1..][i].end.None?;
      assert pt[i + 1] == pt[1..][i];
    }
  }

  /** With `onlyActive`, every returned row belongs to a process instance that has a
      ProcessInstanceLog row with `end is null`. */
  lemma OnlyActiveRowsBelongToRunningInstances(vt: seq<VariableInstanceLog>, pt: seq<ProcessInstanceLog>,
                                              matches: VariableInstanceLog -> bool, v: VariableInstanceLog)
    requires v in VariableQuery(vt, pt, matches, true)
    ensures v in vt && matches(v)
    ensures exists p :: p in pt && p.processInstanceId == v.processInstanceId && p.end.None?
  {
    var r := VariableQuery(vt, pt, matches, true);
    assert multiset(r)[v] > 0;
    PositiveProduct(multiset(vt)[v], ActiveRows(pt, v.processInstanceId));
    RunningRowExists(pt, v.processInstanceId);
    var i :| 0 <= i < |pt| && pt[i].processInstanceId == v.processInstanceId && pt[i].end.None?;
    assert pt[i] in pt;
  }

  /** Every row returned with `onlyActive` is also returned without it. */
  lemma OnlyActiveWithinAll(vt: seq<VariableInstanceLog>, pt: seq<ProcessInstanceLog>,
                            matches: VariableInstanceLog -> bool, v: VariableInstanceLog)
    requires v in VariableQuery(vt, pt, matches, true)
    ensures v in VariableQuery(vt, pt, matches, false)
  {
    var r := VariableQuery(vt, pt, matches, true);
    assert multiset(r)[v] > 0;
    PositiveProduct(multiset(vt)[v], ActiveRows(pt, v.processInstanceId));
    assert multiset(VariableQuery(vt, pt, matches, false))[v] > 0;
  }

  /** No two ProcessInstanceLog rows describe the same process instance. */
  ghost predicate UniqueInstanceIds(pt: seq<ProcessInstanceLog>)
  {
    forall i, j :: 0 <= i < j < |pt| ==> pt[i].processInstanceId != pt[j].processInstanceId
  }

  lemma {:induction false} AtMostOneActiveRow(pt: seq<ProcessInstanceLog>, processInstanceId: int)
    requires UniqueInstanceIds(pt)
    ensures ActiveRows(pt, processInstanceId) <= 1
  {
    if pt != [] {
      assert UniqueInstanceIds(pt[1..]) by {
        forall i, j | 0 <= i < j < |pt[1..]| ensures pt[1..][i].processInstanceId != pt[1..][j].processInstanceId {
          assert pt[1..][i] == pt[i + 1] && pt[1..][j] == pt[j + 1];
        }
      }
      AtMostOneActiveRow(pt[1..], processInstanceId);
      if pt[0].processInstanceId == processInstanceId && ActiveRows(pt[1..], processInstanceId) > 0 {
        assert false;
      }
    }
  }

  /** When process-instance ids are unique, the join duplicates nothing, so the
      `onlyActive` result is a sub-multiset of the unrestricted one. */
  lemma OnlyActiveSubMultiset(vt: seq<VariableInstanceLog>, pt: seq<ProcessInstanceLog>,
                              matches: VariableInstanceLog -> bool)
    requires UniqueInstanceIds(pt)
    ensures multiset(VariableQuery(vt, pt, matches, true)) <= multiset(VariableQuery(vt, pt, matches, false))
  {
    var a, b := VariableQuery(vt, pt, matches, true), VariableQuery(vt, pt, matches, false);
    forall v: VariableInstanceLog ensures multiset(a)[v] <= multiset(b)[v] {
      AtMostOneActiveRow(pt, v.processInstanceId);
      var k, n := multiset(vt)[v], ActiveRows(pt, v.processInstanceId);
      assert k * n <= k by {
        if n == 0 { } else { assert n == 1; }
      }
    }
  }

  // ---------------------------------------------------------------------------
  // After clear()

  /** Once the three tables are empty, every query answers with nothing. */
  lemma ClearedTablesAnswerNothing(processId: string, processInstanceId: int, nodeId: string,
                                   variableId: string, value: string, onlyActive: bool)
    ensures ProcessInstancesOf([], processId) == []
    ensures ActiveProcessInstancesOf([], processId) == []
    ensures ProcessInstanceById([], processInstanceId) == NoResult
    ensures SubProcessInstancesOf([], processInstanceId) == []
    ensures NodeInstancesOf([], processInstanceId) == []
    ensures NodeInstancesOfNode([], processInstanceId, nodeId) == []
    ensures VariableInstancesOf([], processInstanceId) == []
    ensures VariableInstancesOfVariable([], processInstanceId, variableId) == []
    ensures VariableInstancesByName([], [], variableId, onlyActive) == []
    ensures VariableInstancesByNameAndValue([], [], variableId, value, onlyActive) == []
  {
  }
}
