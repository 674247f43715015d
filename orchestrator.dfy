/**
 * The orchestrator's repository (internal/orchestrator/orchestrator.go): an
 * in-memory store of expressions and tasks keyed by identifier, the
 * dependency-gated choice of the next runnable task, and the propagation of
 * a task's new status to the expression that owns it.
 *
 * The transitions are first stated as functions on a `Store` value; the
 * `Repository` class holds the two maps as fields and its methods, written
 * as the Go loops are, are proved to perform exactly those transitions.
 */
module Orchestrator {
  import opened Wrappers
  import opened Config
  import Calc

  /** The contents of a repository. */
  datatype Store = Store(expressions: map<string, Expression>, tasks: map<string, Task>)

  // ----- specification -----

  /** allDependenciesCompleted: every dependency is stored and "completed". */
  predicate DependenciesCompleted(tasks: map<string, Task>, dependencies: seq<string>) {
    forall i :: 0 <= i < |dependencies| ==>
      dependencies[i] in tasks && tasks[dependencies[i]].status == Completed
  }

  /** A task GetPendingTask may hand out. */
  predicate Eligible(tasks: map<string, Task>, t: Task) {
    t.status == Pending && DependenciesCompleted(tasks, t.dependencies)
  }

  /** The task map after storing `ts` one by one under their ids (a later task with the same id wins). */
  function Indexed(tasks: map<string, Task>, ts: seq<Task>): map<string, Task> {
    if ts == [] then tasks
    else Indexed(tasks, Calc.DropLast(ts))[Calc.Last(ts).id := Calc.Last(ts)]
  }

  /** The store after Repository.AddExpression. */
  function Added(s: Store, e: Expression): Store {
    Store(s.expressions[e.id := e], Indexed(s.tasks, e.tasks))
  }

  /** Whether an expression's task list has a task with the id. */
  predicate Lists(e: Expression, taskId: string) {
    taskId in Ids(e.tasks)
  }

  /** Whether every task of the list is stored and "completed". */
  predicate AllCompleted(tasks: map<string, Task>, ts: seq<Task>) {
    forall i :: 0 <= i < |ts| ==> ts[i].id in tasks && tasks[ts[i].id].status == Completed
  }

  /**
   * The recomputation shared by UpdateTaskStatus and UpdateExpressionStatus:
   * "completed" with the result of the stored last task when every task is
   * stored and completed, "pending" otherwise. An empty task list would be
   * indexed at -1, a run-time panic, hence the precondition.
   */
  function Recomputed(tasks: map<string, Task>, e: Expression): (r: Expression)
    requires e.tasks != []
    ensures r.id == e.id && r.tasks == e.tasks
  {
    if AllCompleted(tasks, e.tasks) then
      e.(status := Completed, result := tasks[Calc.Last(e.tasks).id].result)
    else
      e.(status := Pending)
  }

  /** The expressions with every one of the given keys whose task list has `taskId` marked "error". */
  function Marked(expressions: map<string, Expression>, taskId: string, keys: set<string>): map<string, Expression> {
    map k | k in expressions ::
      if k in keys && Lists(expressions[k], taskId) then expressions[k].(status := Failed) else expressions[k]
  }

  /** A task after its status update: the result is taken only with "completed". */
  function UpdatedTask(t: Task, status: string, result: real): Task {
    t.(status := status, result := if status == Completed then result else t.result)
  }

  /** What UpdateTaskStatus needs so as not to index an empty task list. */
  predicate TaskUpdateGuard(s: Store, taskId: string) {
    taskId in s.tasks && s.tasks[taskId].expressionId != "" && s.tasks[taskId].expressionId in s.expressions
    ==> s.expressions[s.tasks[taskId].expressionId].tasks != []
  }

  /** What UpdateExpressionStatus needs so as not to index an empty task list. */
  predicate ExpressionUpdateGuard(s: Store, expressionId: string) {
    expressionId in s.expressions ==> s.expressions[expressionId].tasks != []
  }

  /** The store after Repository.UpdateTaskStatus. */
  function AfterTaskUpdate(s: Store, taskId: string, status: string, result: real): Store
    requires TaskUpdateGuard(s, taskId)
  {
    if taskId !in s.tasks then s
    else
      var t := UpdatedTask(s.tasks[taskId], status, result);
      var tasks := s.tasks[taskId := t];
      var marked := if status == Failed then Marked(s.expressions, taskId, s.expressions.Keys) else s.expressions;
      if t.expressionId != "" && t.expressionId in marked then
        Store(marked[t.expressionId := Recomputed(tasks, marked[t.expressionId])], tasks)
      else
        Store(marked, tasks)
  }

  /** The store after Repository.UpdateExpressionStatus. */
  function AfterExpressionUpdate(s: Store, expressionId: string): Store
    requires ExpressionUpdateGuard(s, expressionId)
  {
    if expressionId !in s.expressions then s
    else Store(s.expressions[expressionId := Recomputed(s.tasks, s.expressions[expressionId])], s.tasks)
  }

  /** `r` lists the values of `m` in the order of the distinct keys `keys`, which are all of m's keys. */
  ghost predicate Enumerates<V>(m: map<string, V>, keys: seq<string>, r: seq<V>) {
    && |keys| == |r|
    && (forall i, j :: 0 <= i < j < |keys| ==> keys[i] != keys[j])
    && (forall k :: k in m <==> k in keys)
    && (forall i :: 0 <= i < |keys| ==> keys[i] in m && r[i] == m[keys[i]])
  }

  // ----- the repository -----

  class Repository {
    var expressions: map<string, Expression>
    var tasks: map<string, Task>

    constructor ()
      ensures expressions == map[] && tasks == map[]
    {
      expressions := map[];
      tasks := map[];
    }

    function State(): Store
      reads this
    {
      Store(expressions, tasks)
    }

    /** Stores the expression under its id, then each of its tasks under the task's id. */
    method AddExpression(expression: Expression)
      modifies this
      ensures State() == Added(old(State()), expression)
    {
      expressions := expressions[expression.id := expression];
      for i := 0 to |expression.tasks|
        invariant expressions == old(expressions)[expression.id := expression]
        invariant tasks == Indexed(old(tasks), expression.tasks[..i])
      {
        var task := expression.tasks[i];
        assert Calc.DropLast(expression.tasks[..i + 1]) == expression.tasks[..i];
        tasks := tasks[task.id := task];
      }
      assert expression.tasks[..|expression.tasks|] == expression.tasks;
    }

    method GetExpressionByID(expressionId: string) returns (r: Option<Expression>)
      ensures expressionId in expressions ==> r == Some(expressions[expressionId])
      ensures expressionId !in expressions ==> r == None
    {
      if expressionId in expressions {
        r := Some(expressions[expressionId]);
      } else {
        r := None;
      }
    }

    /** Every stored expression, once each, in an unspecified order (Go's map order). */
    method GetAllExpressions() returns (r: seq<Expression>)
      ensures |r| == |expressions.Keys|
      ensures exists keys :: Enumerates(expressions, keys, r)
    {
      r := [];
      var remaining := expressions.Keys;
      ghost var keys: seq<string> := [];
      while remaining != {}
        invariant remaining <= expressions.Keys
        invariant |keys| == |r| && |r| + |remaining| == |expressions.Keys|
        invariant forall i :: 0 <= i < |keys| ==> keys[i] in expressions && keys[i] !in remaining && r[i] == expressions[keys[i]]
        invariant forall i, j :: 0 <= i < j < |keys| ==> keys[i] != keys[j]
        invariant forall k :: k in expressions ==> k in remaining || k in keys
        decreases remaining
      {
        var k :| k in remaining;
        r := r + [expressions[k]];
        keys := keys + [k];
        remaining := remaining - {k};
      }
      assert Enumerates(expressions, keys, r);
    }

    method GetTaskByID(taskId: string) returns (r: Option<Task>)
      ensures taskId in tasks ==> r == Some(tasks[taskId])
      ensures taskId !in tasks ==> r == None
    {
      if taskId in tasks {
        r := Some(tasks[taskId]);
      } else {
        r := None;
      }
    }

    /** Some stored "pending" task whose dependencies are all completed, if there is one. */
    method GetPendingTask() returns (r: Option<Task>)
      ensures r.Some? ==> r.value in tasks.Values && Eligible(tasks, r.value)
      ensures r.None? ==> forall k :: k in tasks ==> !Eligible(tasks, tasks[k])
    {
      var remaining := tasks.Keys;
      while remaining != {}
        invariant remaining <= tasks.Keys
        invariant forall k :: k in tasks && k !in remaining ==> !Eligible(tasks, tasks[k])
        decreases remaining
      {
        var k :| k in remaining;
        var task := tasks[k];
        if task.status == Pending {
          var ready := AllDependenciesCompleted(task.dependencies);
          if ready {
            return Some(task);
          }
        }
        remaining := remaining - {k};
      }
      return None;
    }

    method AllDependenciesCompleted(dependencies: seq<string>) returns (b: bool)
      ensures b == DependenciesCompleted(tasks, dependencies)
    {
      for i := 0 to |dependencies|
        invariant DependenciesCompleted(tasks, dependencies[..i])
      {
        var depId := dependencies[i];
        if depId !in tasks || tasks[depId].status != Completed {
          return false;
        }
      }
      assert dependencies[..|dependencies|] == dependencies;
      return true;
    }

    /** Whether every task of the list is stored and completed, as the recompute loops find it. */
    method AllTasksCompleted(ts: seq<Task>) returns (allCompleted: bool)
      ensures allCompleted == AllCompleted(tasks, ts)
    {
      allCompleted := true;
      var i := 0;
      while i < |ts|
        invariant 0 <= i <= |ts|
        invariant AllCompleted(tasks, ts[..i])
      {
        var storedTask := ts[i].id;
        if storedTask !in tasks || tasks[storedTask].status != Completed {
          allCompleted := false;
          break;
        }
        i := i + 1;
      }
      if allCompleted {
        assert ts[..|ts|] == ts;
      }
    }

    /**
     * Sets the task's status (and its result, with "completed"); with
     * "error" marks every expression listing the task; then recomputes the
     * owning expression. An unknown task id changes nothing.
     */
    method UpdateTaskStatus(taskId: string, status: string, result: real)
      requires TaskUpdateGuard(State(), taskId)
      modifies this
      ensures State() == AfterTaskUpdate(old(State()), taskId, status, result)
    {
      if taskId !in tasks {
        return;
      }
      var task := tasks[taskId];
      task := task.(status := status);
      if status == Completed {
        task := task.(result := result);
      } else if status == Failed {
        MarkFailed(taskId);
      }
      tasks := tasks[taskId := task];

      if task.expressionId != "" && task.expressionId in expressions {
        var expr := expressions[task.expressionId];
        var allCompleted := AllTasksCompleted(expr.tasks);
        if allCompleted {
          var lastTaskId := expr.tasks[|expr.tasks| - 1].id;
          if lastTaskId in tasks {
            expr := expr.(status := Completed, result := tasks[lastTaskId].result);
          }
        } else {
          expr := expr.(status := Pending);
        }
        expressions := expressions[task.expressionId := expr];
      }
    }

    /** The "error" branch of UpdateTaskStatus: every expression whose task list has the id is marked "error". */
    method MarkFailed(taskId: string)
      modifies this
      ensures tasks == old(tasks)
      ensures expressions == Marked(old(expressions), taskId, old(expressions).Keys)
    {
      var remaining := expressions.Keys;
      ghost var done: set<string> := {};
      while remaining != {}
        invariant tasks == old(tasks)
        invariant remaining + done == old(expressions).Keys && remaining !! done
        invariant expressions == Marked(old(expressions), taskId, done)
        decreases remaining
      {
        var key :| key in remaining;
        var expr := expressions[key];
        for i := 0 to |expr.tasks|
          invariant expressions == Marked(old(expressions), taskId, done)
          invariant forall j :: 0 <= j < i ==> expr.tasks[j].id != taskId
        {
          if expr.tasks[i].id == taskId {
            expressions := expressions[key := expr.(status := Failed)];
            break;
          }
        }
        done := done + {key};
        remaining := remaining - {key};
      }
    }

    /** Recomputes the expression's status from its stored tasks; an unknown id changes nothing. */
    method UpdateExpressionStatus(expressionId: string)
      requires ExpressionUpdateGuard(State(), expressionId)
      modifies this
      ensures State() == AfterExpressionUpdate(old(State()), expressionId)
    {
      if expressionId !in expressions {
        return;
      }
      var expression := expressions[expressionId];
      var allCompleted := AllTasksCompleted(expression.tasks);
      if allCompleted {
        var lastTaskId := expression.tasks[|expression.tasks| - 1].id;
        if lastTaskId in tasks {
          expression := expression.(status := Completed, result := tasks[lastTaskId].result);
        }
      } else {
        expression := expression.(status := Pending);
      }
      expressions := expressions[expressionId := expression];
    }
  }

  // ----- the application -----

  class Application {
    const repository: Repository

    constructor ()
      ensures fresh(repository)
      ensures repository.State() == Store(map[], map[])
    {
      repository := new Repository();
    }

    /**
     * Compiles the expression under the identifier `expressionId` (the
     * expression's fresh id) and stores it "pending" with the compiled
     * tasks; a compile error is returned with the empty id and leaves the
     * store as it was.
     */
    method AddExpression(expression: string, expressionId: string, newId: nat -> string, times: OperationTimes)
      returns (id: string, err: Option<Calc.CalcError>)
      modifies repository
      ensures match Calc.Parse(expression, expressionId, newId, times)
        case Err(e) => id == "" && err == Some(e) && repository.State() == old(repository.State())
        case Ok(ts) =>
          && id == expressionId && err == None
          && repository.State() == Added(old(repository.State()), Expression(expressionId, Pending, 0.0, ts))
    {
      var tasks := Calc.ParseExpression(expression, expressionId, newId, times);
      if tasks.Err? {
        return "", Some(tasks.error);
      }
      repository.AddExpression(Expression(expressionId, Pending, 0.0, tasks.value));
      return expressionId, None;
    }

    method GetExpressionByID(expressionId: string) returns (r: Option<Expression>)
      ensures expressionId in repository.expressions ==> r == Some(repository.expressions[expressionId])
      ensures expressionId !in repository.expressions ==> r == None
    {
      r := repository.GetExpressionByID(expressionId);
    }

    method GetAllExpressions() returns (r: seq<Expression>)
      ensures |r| == |repository.expressions.Keys|
      ensures exists keys :: Enumerates(repository.expressions, keys, r)
    {
      r := repository.GetAllExpressions();
    }

    method GetPendingTask() returns (r: Option<Task>)
      ensures r.Some? ==> r.value in repository.tasks.Values && Eligible(repository.tasks, r.value)
      ensures r.None? ==> forall k :: k in repository.tasks ==> !Eligible(repository.tasks, repository.tasks[k])
    {
      r := repository.GetPendingTask();
    }

    method UpdateTaskStatus(taskId: string, status: string, result: real)
      requires TaskUpdateGuard(repository.State(), taskId)
      modifies repository
      ensures repository.State() == AfterTaskUpdate(old(repository.State()), taskId, status, result)
    {
      repository.UpdateTaskStatus(taskId, status, result);
    }
  }
}
