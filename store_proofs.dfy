/**
 * What the repository's transitions promise: lookups after an insertion,
 * the frame and the status propagation of a task update, and a store
 * invariant (keys are ids, every task belongs to exactly the expression
 * that lists it) that adding a compiled expression and both updates keep.
 */
module StoreProofs {
  import opened Config
  import opened Orchestrator
  import Calc
  import TaskProofs

  /**
   * Every key is the id of its entry; every task names a stored, non-empty
   * owner id and is listed by that owner; every task an expression lists is
   * stored and owned by it.
   */
  predicate StoreInvariant(s: Store) {
    && (forall k :: k in s.expressions ==> s.expressions[k].id == k && k != "")
    && (forall k :: k in s.tasks ==> s.tasks[k].id == k)
    && (forall k :: k in s.tasks ==>
          s.tasks[k].expressionId in s.expressions && Lists(s.expressions[s.tasks[k].expressionId], k))
    && (forall k, i :: k in s.expressions && 0 <= i < |s.expressions[k].tasks| ==>
          s.expressions[k].tasks[i].id in s.tasks && s.tasks[s.expressions[k].tasks[i].id].expressionId == k)
  }

  predicate DistinctIds(ts: seq<Task>) {
    forall i, j :: 0 <= i < j < |ts| ==> ts[i].id != ts[j].id
  }

  // ----- insertion -----

  lemma {:induction false} IndexedKeys(tasks: map<string, Task>, ts: seq<Task>)
    ensures Indexed(tasks, ts).Keys == tasks.Keys + set t | t in ts :: t.id
  {
    if ts != [] {
      var front, t := Calc.DropLast(ts), Calc.Last(ts);
      assert ts == front + [t];
      IndexedKeys(tasks, front);
    }
  }

  lemma {:induction false} IndexedOthers(tasks: map<string, Task>, ts: seq<Task>)
    ensures forall k :: k in tasks && k !in Ids(ts) ==> k in Indexed(tasks, ts) && Indexed(tasks, ts)[k] == tasks[k]
  {
    if ts != [] {
      var front, t := Calc.DropLast(ts), Calc.Last(ts);
      IndexedOthers(tasks, front);
      assert Ids(ts) == Ids(front) + [t.id];
    }
  }

  lemma {:induction false} IndexedRetrievable(tasks: map<string, Task>, ts: seq<Task>)
    requires DistinctIds(ts)
    ensures forall i :: 0 <= i < |ts| ==> ts[i].id in Indexed(tasks, ts) && Indexed(tasks, ts)[ts[i].id] == ts[i]
  {
    if ts != [] {
      var front, t := Calc.DropLast(ts), Calc.Last(ts);
      assert DistinctIds(front);
      IndexedRetrievable(tasks, front);
      forall i | 0 <= i < |ts|
        ensures ts[i].id in Indexed(tasks, ts) && Indexed(tasks, ts)[ts[i].id] == ts[i]
      {
        if i < |front| {
          assert ts[i] == front[i];
        }
      }
    }
  }

  /**
   * Indexing stores exactly the ids of `ts` besides the old keys, leaves
   * every other key alone, and, when the ids are distinct, makes every task
   * retrievable by its id.
   */
  lemma IndexedFacts(tasks: map<string, Task>, ts: seq<Task>)
    ensures Indexed(tasks, ts).Keys == tasks.Keys + set t | t in ts :: t.id
    ensures forall k :: k in tasks && k !in Ids(ts) ==> Indexed(tasks, ts)[k] == tasks[k]
    ensures DistinctIds(ts) ==> forall i :: 0 <= i < |ts| ==> Indexed(tasks, ts)[ts[i].id] == ts[i]
  {
    IndexedKeys(tasks, ts);
    IndexedOthers(tasks, ts);
    if DistinctIds(ts) {
      IndexedRetrievable(tasks, ts);
    }
  }

  /** AddExpression stores the expression under its id and keeps every other expression. */
  lemma AddedFacts(s: Store, e: Expression)
    ensures Added(s, e).expressions[e.id] == e
    ensures forall k :: k in s.expressions && k != e.id ==> Added(s, e).expressions[k] == s.expressions[k]
    ensures Added(s, e).expressions.Keys == s.expressions.Keys + {e.id}
    ensures Added(s, e).tasks.Keys == s.tasks.Keys + set t | t in e.tasks :: t.id
    ensures forall k :: k in s.tasks && k !in Ids(e.tasks) ==> Added(s, e).tasks[k] == s.tasks[k]
    ensures DistinctIds(e.tasks) ==> forall i :: 0 <= i < |e.tasks| ==> Added(s, e).tasks[e.tasks[i].id] == e.tasks[i]
  {
    IndexedFacts(s.tasks, e.tasks);
  }

  /** The task `k` of the store after adding `e`, when `e`'s ids are fresh and distinct. */
  lemma AddedTask(s: Store, e: Expression, k: string)
    requires DistinctIds(e.tasks)
    requires forall i :: 0 <= i < |e.tasks| ==> e.tasks[i].id !in s.tasks
    requires k in Added(s, e).tasks
    ensures k in Ids(e.tasks) ==> exists i :: 0 <= i < |e.tasks| && e.tasks[i].id == k && Added(s, e).tasks[k] == e.tasks[i]
    ensures k !in Ids(e.tasks) ==> k in s.tasks && Added(s, e).tasks[k] == s.tasks[k]
  {
    AddedFacts(s, e);
    if k in Ids(e.tasks) {
      var i :| 0 <= i < |e.tasks| && Ids(e.tasks)[i] == k;
      assert e.tasks[i].id == k;
    }
  }

  lemma AddedTasksOwned(s: Store, e: Expression)
    requires StoreInvariant(s)
    requires e.id !in s.expressions
    requires DistinctIds(e.tasks)
    requires forall i :: 0 <= i < |e.tasks| ==> e.tasks[i].id !in s.tasks && e.tasks[i].expressionId == e.id
    ensures forall k :: k in Added(s, e).tasks ==>
      && Added(s, e).tasks[k].id == k
      && Added(s, e).tasks[k].expressionId in Added(s, e).expressions
      && Lists(Added(s, e).expressions[Added(s, e).tasks[k].expressionId], k)
  {
    var s' := Added(s, e);
    forall k | k in s'.tasks
      ensures s'.tasks[k].id == k
      ensures s'.tasks[k].expressionId in s'.expressions && Lists(s'.expressions[s'.tasks[k].expressionId], k)
    {
      AddedTask(s, e, k);
      if k in Ids(e.tasks) {
        var i :| 0 <= i < |e.tasks| && e.tasks[i].id == k && s'.tasks[k] == e.tasks[i];
        assert Ids(e.tasks)[i] == k;
      } else {
        assert s.tasks[k].expressionId in s.expressions;
      }
    }
  }

  lemma AddedListsStored(s: Store, e: Expression)
    requires StoreInvariant(s)
    requires e.id !in s.expressions
    requires DistinctIds(e.tasks)
    requires forall i :: 0 <= i < |e.tasks| ==> e.tasks[i].id !in s.tasks && e.tasks[i].expressionId == e.id
    ensures forall k, i :: k in Added(s, e).expressions && 0 <= i < |Added(s, e).expressions[k].tasks| ==>
      && Added(s, e).expressions[k].tasks[i].id in Added(s, e).tasks
      && Added(s, e).tasks[Added(s, e).expressions[k].tasks[i].id].expressionId == k
  {
    AddedFacts(s, e);
    var s' := Added(s, e);
    forall k, i | k in s'.expressions && 0 <= i < |s'.expressions[k].tasks|
      ensures s'.expressions[k].tasks[i].id in s'.tasks
      ensures s'.tasks[s'.expressions[k].tasks[i].id].expressionId == k
    {
      if k != e.id {
        var id := s.expressions[k].tasks[i].id;
        assert id in s.tasks;
        assert id !in Ids(e.tasks);
      }
    }
  }

  /**
   * Adding an expression with a fresh non-empty id, whose tasks have fresh
   * distinct ids and name it as owner, keeps the invariant.
   */
  lemma AddKeepsInvariant(s: Store, e: Expression)
    requires StoreInvariant(s)
    requires e.id != "" && e.id !in s.expressions
    requires DistinctIds(e.tasks)
    requires forall i :: 0 <= i < |e.tasks| ==> e.tasks[i].id !in s.tasks && e.tasks[i].expressionId == e.id
    ensures StoreInvariant(Added(s, e))
  {
    AddedTasksOwned(s, e);
    AddedListsStored(s, e);
  }

  /** What the compiler promises the repository: distinct ids from the generator, the owner, "pending", and a first task with no dependency. */
  lemma CompiledTasks(text: string, expressionId: string, newId: nat -> string, times: OperationTimes)
    requires forall a: nat, b: nat :: a != b ==> newId(a) != newId(b)
    requires Calc.Parse(text, expressionId, newId, times).Ok?
    ensures
      var ts := Calc.Parse(text, expressionId, newId, times).value;
      && DistinctIds(ts)
      && (forall i :: 0 <= i < |ts| ==> ts[i].id == newId(i) && ts[i].expressionId == expressionId && ts[i].status == Pending)
      && (ts != [] ==> ts[0].dependencies == [])
  {
    var ts := Calc.Parse(text, expressionId, newId, times).value;
    // the first dependency, if any, is in the list: stated before the facts that exclude it
    if ts != [] {
      assert ts[0].dependencies == [] || ts[0].dependencies[0] in ts[0].dependencies;
    }
    TaskProofs.ParseFacts(text, expressionId, newId, times);
    assert forall m :: 0 <= m < |ts| ==> TaskProofs.BuiltAs(ts[m], m, expressionId, newId, times);
    if ts != [] {
      assert Ids(ts[..0]) == [];
    }
  }

  /**
   * Application.AddExpression keeps the invariant when the expression id is
   * fresh and non-empty and the task id generator never repeats itself nor
   * an id already stored; each compiled task is then retrievable by its id.
   */
  lemma ParsedAddKeepsInvariant(s: Store, text: string, expressionId: string, newId: nat -> string,
                                times: OperationTimes)
    requires StoreInvariant(s)
    requires expressionId != "" && expressionId !in s.expressions
    requires forall a: nat, b: nat :: a != b ==> newId(a) != newId(b)
    requires forall m: nat :: newId(m) !in s.tasks
    requires Calc.Parse(text, expressionId, newId, times).Ok?
    ensures
      var ts := Calc.Parse(text, expressionId, newId, times).value;
      var s' := Added(s, Expression(expressionId, Pending, 0.0, ts));
      && StoreInvariant(s')
      && (forall i :: 0 <= i < |ts| ==> ts[i].id in s'.tasks && s'.tasks[ts[i].id] == ts[i])
  {
    var ts := Calc.Parse(text, expressionId, newId, times).value;
    CompiledTasks(text, expressionId, newId, times);
    var e := Expression(expressionId, Pending, 0.0, ts);
    AddKeepsInvariant(s, e);
    AddedFacts(s, e);
  }

  /**
   * A freshly added compiled expression with at least one task has a task
   * GetPendingTask may hand out: its first task, which depends on nothing.
   */
  lemma FirstTaskRunnable(s: Store, text: string, expressionId: string, newId: nat -> string,
                          times: OperationTimes)
    requires forall a: nat, b: nat :: a != b ==> newId(a) != newId(b)
    requires Calc.Parse(text, expressionId, newId, times).Ok?
    requires Calc.Parse(text, expressionId, newId, times).value != []
    ensures
      var ts := Calc.Parse(text, expressionId, newId, times).value;
      var s' := Added(s, Expression(expressionId, Pending, 0.0, ts));
      ts[0].id in s'.tasks && Eligible(s'.tasks, s'.tasks[ts[0].id])
  {
    var ts := Calc.Parse(text, expressionId, newId, times).value;
    CompiledTasks(text, expressionId, newId, times);
    AddedFacts(s, Expression(expressionId, Pending, 0.0, ts));
  }

  // ----- task updates -----

  /** The two stores have the same keys, and every entry the same id, owner and task list. */
  predicate SameShape(s: Store, s': Store) {
    && s'.tasks.Keys == s.tasks.Keys
    && s'.expressions.Keys == s.expressions.Keys
    && (forall k :: k in s.tasks ==> s'.tasks[k].id == s.tasks[k].id && s'.tasks[k].expressionId == s.tasks[k].expressionId)
    && (forall k :: k in s.expressions ==>
          s'.expressions[k].id == s.expressions[k].id && s'.expressions[k].tasks == s.expressions[k].tasks)
  }

  lemma ShapeKeepsInvariant(s: Store, s': Store)
    requires StoreInvariant(s) && SameShape(s, s')
    ensures StoreInvariant(s')
  {
    forall k, i | k in s'.expressions && 0 <= i < |s'.expressions[k].tasks|
      ensures s'.expressions[k].tasks[i].id in s'.tasks
      ensures s'.tasks[s'.expressions[k].tasks[i].id].expressionId == k
    {
      assert s'.expressions[k].tasks[i] == s.expressions[k].tasks[i];
    }
  }

  lemma MarkedShape(expressions: map<string, Expression>, taskId: string, keys: set<string>)
    ensures Marked(expressions, taskId, keys).Keys == expressions.Keys
    ensures forall k :: k in expressions ==>
      Marked(expressions, taskId, keys)[k].id == expressions[k].id && Marked(expressions, taskId, keys)[k].tasks == expressions[k].tasks
  {
  }

  lemma TaskUpdateShape(s: Store, taskId: string, status: string, result: real)
    requires TaskUpdateGuard(s, taskId)
    ensures SameShape(s, AfterTaskUpdate(s, taskId, status, result))
  {
    MarkedShape(s.expressions, taskId, s.expressions.Keys);
  }

  /**
   * UpdateTaskStatus: an unknown id changes nothing; otherwise the task gets
   * the status, and the result only with "completed", and no other task and
   * no other field changes; an expression that neither owns the task nor,
   * in an "error" update, lists it is left as it was.
   */
  lemma TaskUpdateFrame(s: Store, taskId: string, status: string, result: real)
    requires TaskUpdateGuard(s, taskId)
    ensures taskId !in s.tasks ==> AfterTaskUpdate(s, taskId, status, result) == s
    ensures SameShape(s, AfterTaskUpdate(s, taskId, status, result))
    ensures taskId in s.tasks ==>
      var t, t' := s.tasks[taskId], AfterTaskUpdate(s, taskId, status, result).tasks[taskId];
      && t'.status == status
      && t'.result == (if status == Completed then result else t.result)
      && t'.arg1 == t.arg1 && t'.arg2 == t.arg2 && t'.operation == t.operation
      && t'.operationTime == t.operationTime && t'.dependencies == t.dependencies
    ensures forall k :: k in s.tasks && k != taskId ==> AfterTaskUpdate(s, taskId, status, result).tasks[k] == s.tasks[k]
    ensures taskId in s.tasks ==>
      forall k :: k in s.expressions && k != s.tasks[taskId].expressionId && !(status == Failed && Lists(s.expressions[k], taskId))
        ==> AfterTaskUpdate(s, taskId, status, result).expressions[k] == s.expressions[k]
    ensures taskId in s.tasks && status == Failed ==>
      forall k :: k in s.expressions && k != s.tasks[taskId].expressionId && Lists(s.expressions[k], taskId)
        ==> AfterTaskUpdate(s, taskId, status, result).expressions[k].status == Failed
  {
    TaskUpdateShape(s, taskId, status, result);
  }

  /**
   * UpdateTaskStatus, on the owning expression: it becomes "completed" with
   * the result of its last task when all its tasks are stored and completed
   * afterwards, "pending" otherwise. In particular it is "pending" after any
   * update of a task it lists to a status other than "completed": an
   * "error" mark of the owner does not survive.
   */
  lemma OwnerRecomputed(s: Store, taskId: string, status: string, result: real)
    requires TaskUpdateGuard(s, taskId)
    requires taskId in s.tasks
    requires s.tasks[taskId].expressionId != "" && s.tasks[taskId].expressionId in s.expressions
    ensures
      var s' := AfterTaskUpdate(s, taskId, status, result);
      var e := s'.expressions[s.tasks[taskId].expressionId];
      && e.tasks != []
      && e.status == (if AllCompleted(s'.tasks, e.tasks) then Completed else Pending)
      && (AllCompleted(s'.tasks, e.tasks) ==> e.result == s'.tasks[Calc.Last(e.tasks).id].result)
      && (!AllCompleted(s'.tasks, e.tasks) ==> e.result == s.expressions[s.tasks[taskId].expressionId].result)
      && (status != Completed && Lists(e, taskId) ==> e.status == Pending)
  {
    var s' := AfterTaskUpdate(s, taskId, status, result);
    var owner := s.tasks[taskId].expressionId;
    TaskUpdateShape(s, taskId, status, result);
    var e := s'.expressions[owner];
    if status != Completed && Lists(e, taskId) {
      var i :| 0 <= i < |e.tasks| && Ids(e.tasks)[i] == taskId;
      assert s'.tasks[e.tasks[i].id].status == status;
    }
  }

  /**
   * Under the invariant an "error" update touches no expression but the
   * owner, which ends up "pending": the error is not recorded on any
   * expression.
   */
  lemma ErrorNotKept(s: Store, taskId: string, result: real)
    requires StoreInvariant(s)
    requires taskId in s.tasks
    ensures TaskUpdateGuard(s, taskId)
    ensures
      var s' := AfterTaskUpdate(s, taskId, Failed, result);
      var owner := s.tasks[taskId].expressionId;
      && s'.expressions[owner].status == Pending
      && (forall k :: k in s.expressions && k != owner ==> s'.expressions[k] == s.expressions[k])
  {
    InvariantGuards(s, taskId);
    var owner := s.tasks[taskId].expressionId;
    OwnerRecomputed(s, taskId, Failed, result);
    TaskUpdateFrame(s, taskId, Failed, result);
    forall k | k in s.expressions && k != owner
      ensures !Lists(s.expressions[k], taskId)
    {
    }
  }

  /** Under the invariant neither update can index an empty task list: every owner lists its task. */
  lemma InvariantGuards(s: Store, taskId: string)
    requires StoreInvariant(s)
    ensures TaskUpdateGuard(s, taskId)
  {
    if taskId in s.tasks {
      var owner := s.tasks[taskId].expressionId;
      assert Lists(s.expressions[owner], taskId);
    }
  }

  /** UpdateTaskStatus keeps the invariant. */
  lemma TaskUpdateKeepsInvariant(s: Store, taskId: string, status: string, result: real)
    requires StoreInvariant(s)
    ensures TaskUpdateGuard(s, taskId)
    ensures StoreInvariant(AfterTaskUpdate(s, taskId, status, result))
  {
    InvariantGuards(s, taskId);
    TaskUpdateShape(s, taskId, status, result);
    ShapeKeepsInvariant(s, AfterTaskUpdate(s, taskId, status, result));
  }

  // ----- expression updates -----

  /**
   * UpdateExpressionStatus: an unknown id changes nothing; otherwise only
   * that expression changes, to "completed" with its last task's result
   * when every task is stored and completed, to "pending" otherwise; the
   * invariant is kept.
   */
  lemma ExpressionUpdateFacts(s: Store, expressionId: string)
    requires ExpressionUpdateGuard(s, expressionId)
    ensures expressionId !in s.expressions ==> AfterExpressionUpdate(s, expressionId) == s
    ensures AfterExpressionUpdate(s, expressionId).tasks == s.tasks
    ensures SameShape(s, AfterExpressionUpdate(s, expressionId))
    ensures forall k :: k in s.expressions && k != expressionId ==>
              AfterExpressionUpdate(s, expressionId).expressions[k] == s.expressions[k]
    ensures expressionId in s.expressions ==>
      var e := AfterExpressionUpdate(s, expressionId).expressions[expressionId];
      && e.status == (if AllCompleted(s.tasks, e.tasks) then Completed else Pending)
      && (AllCompleted(s.tasks, e.tasks) ==> e.result == s.tasks[Calc.Last(e.tasks).id].result)
    ensures StoreInvariant(s) ==> StoreInvariant(AfterExpressionUpdate(s, expressionId))
  {
    if StoreInvariant(s) {
      ShapeKeepsInvariant(s, AfterExpressionUpdate(s, expressionId));
    }
  }

  // ----- selection -----

  /**
   * allDependenciesCompleted holds for no dependency, fails for a missing or
   * unfinished dependency, and is decided dependency by dependency.
   */
  lemma DependenciesCompletedFacts(tasks: map<string, Task>, dependencies: seq<string>, d: string)
    ensures DependenciesCompleted(tasks, [])
    ensures d in dependencies && (d !in tasks || tasks[d].status != Completed) ==> !DependenciesCompleted(tasks, dependencies)
    ensures DependenciesCompleted(tasks, dependencies + [d]) <==>
              DependenciesCompleted(tasks, dependencies) && d in tasks && tasks[d].status == Completed
  {
    if DependenciesCompleted(tasks, dependencies) && d in tasks && tasks[d].status == Completed {
      var ds := dependencies + [d];
      forall i | 0 <= i < |ds|
        ensures ds[i] in tasks && tasks[ds[i]].status == Completed
      {
        if i < |dependencies| {
          assert ds[i] == dependencies[i];
        }
      }
    }
    if DependenciesCompleted(tasks, dependencies + [d]) {
      assert (dependencies + [d])[|dependencies|] == d;
      forall i | 0 <= i < |dependencies|
        ensures dependencies[i] in tasks && tasks[dependencies[i]].status == Completed
      {
        assert (dependencies + [d])[i] == dependencies[i];
      }
    }
  }
}
