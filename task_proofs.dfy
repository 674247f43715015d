/**
 * What the lowering of postfix tokens into tasks (Calc.Lower and
 * Calc.Parse, which Calc.ParseExpression computes) promises:
 *  - placeholders round-trip through ExtractTaskId and are never numbers;
 *  - one task per operator token, in postfix order, each "pending", of the
 *    given expression, with the configured duration of its operation;
 *  - ErrValues exactly when an operator meets fewer than two stack entries;
 *  - every dependency names an earlier task, and every task is consumed as a
 *    dependency at most once.
 */
module TaskProofs {
  import opened Config
  import opened Calc
  import RpnProofs

  // ----- placeholders -----

  /** The placeholder of a task is recognised and gives the task's id back. */
  lemma PlaceholderRoundTrip(id: string)
    ensures IsPlaceholder(Placeholder(id))
    ensures ExtractTaskId(Placeholder(id)) == id
  {
    var p := Placeholder(id);
    assert p[..|PlaceholderPrefix|] == PlaceholderPrefix;
    assert p[|p| - |PlaceholderSuffix|..] == PlaceholderSuffix;
    var rest := TrimPrefix(p, PlaceholderPrefix);
    assert rest == id + PlaceholderSuffix;
    assert rest[|rest| - |PlaceholderSuffix|..] == PlaceholderSuffix;
  }

  /** Conversely, a recognised argument long enough for both affixes is the placeholder of the id extracted from it. */
  lemma PlaceholderOfExtracted(arg: string)
    requires IsPlaceholder(arg) && |arg| >= |PlaceholderPrefix| + |PlaceholderSuffix|
    ensures Placeholder(ExtractTaskId(arg)) == arg
  {
    AffixesRestored(arg, PlaceholderPrefix, PlaceholderSuffix);
  }

  /** Trimming a prefix and a suffix that do not overlap, then putting them back, gives the string back. */
  lemma AffixesRestored(s: string, prefix: string, suffix: string)
    requires HasPrefix(s, prefix) && HasSuffix(s, suffix) && |s| >= |prefix| + |suffix|
    ensures prefix + TrimSuffix(TrimPrefix(s, prefix), suffix) + suffix == s
  {
    var p, q := |prefix|, |s| - |suffix|;
    var rest := s[p..];
    assert TrimPrefix(s, prefix) == rest;
    assert rest[|rest| - |suffix|..] == s[q..];
    assert TrimSuffix(rest, suffix) == s[p..q];
    assert s == s[..p] + s[p..q] + s[q..];
  }

  /** A token that starts with a digit or a dot is never taken for a placeholder. */
  lemma NumberNotPlaceholder(tok: string)
    requires tok != [] && IsNumberChar(tok[0])
    ensures !IsPlaceholder(tok)
  {
    if |PlaceholderPrefix| <= |tok| {
      assert tok[..|PlaceholderPrefix|][0] == tok[0];
    }
  }

  // ----- reference definitions -----

  /** The operator tokens of a token list, in order. */
  function OperatorTokenSeq(rpn: seq<string>): seq<string> {
    if rpn == [] then []
    else OperatorTokenSeq(DropLast(rpn)) + (if IsOperatorToken(Last(rpn)) then [Last(rpn)] else [])
  }

  /** The operations of a task list, in order. */
  function Operations(ts: seq<Task>): seq<string> {
    seq(|ts|, i requires 0 <= i < |ts| => ts[i].operation)
  }

  /** Whether some operator token, from token `k` on, meets fewer than two entries on a stack of `height` entries. */
  function Underflows(rpn: seq<string>, k: nat, height: nat): bool
    requires k <= |rpn|
    decreases |rpn| - k
  {
    if k == |rpn| then false
    else if IsOperatorToken(rpn[k]) then height < 2 || Underflows(rpn, k + 1, height - 1)
    else Underflows(rpn, k + 1, height + 1)
  }

  /** The ids named by the placeholders among some arguments, in order. */
  function ArgumentIds(args: seq<string>): seq<string> {
    if args == [] then []
    else ArgumentIds(DropLast(args)) + ArgumentId(Last(args))
  }

  /** The task id an argument names, if it is a placeholder. */
  function ArgumentId(arg: string): seq<string> {
    if IsPlaceholder(arg) then [ExtractTaskId(arg)] else []
  }

  /** All dependencies of a task list, task by task. */
  function AllDependencies(ts: seq<Task>): seq<string> {
    if ts == [] then [] else AllDependencies(DropLast(ts)) + Last(ts).dependencies
  }

  /** The fields ParseExpression gives the `m`-th task it builds. */
  predicate BuiltAs(t: Task, m: nat, expressionId: string, newId: nat -> string, times: OperationTimes) {
    && t.id == newId(m)
    && t.expressionId == expressionId
    && t.status == Pending
    && t.operationTime == OperationTime(times, t.operation)
    && t.dependencies == Dependencies(t.arg1, t.arg2)
    && |t.dependencies| <= 2
  }

  /** Every dependency of a task is the id of a task built before it. */
  predicate DependenciesEarlier(ts: seq<Task>) {
    forall m, d | 0 <= m < |ts| && d in ts[m].dependencies :: d in Ids(ts[..m])
  }

  /** No id occurs more often among the dependencies than among the tasks. */
  predicate ConsumedAtMostOnce(ts: seq<Task>) {
    multiset(AllDependencies(ts)) <= multiset(Ids(ts))
  }

  /** No token other than an operator is a placeholder. */
  predicate NoPlaceholderOperands(rpn: seq<string>) {
    forall k :: 0 <= k < |rpn| && !IsOperatorToken(rpn[k]) ==> !IsPlaceholder(rpn[k])
  }

  // ----- the invariant of the lowering loop -----

  predicate LowerInvariant(rpn: seq<string>, k: nat, stack: seq<string>, tasks: seq<Task>,
                           expressionId: string, newId: nat -> string, times: OperationTimes)
  {
    && k <= |rpn|
    && Operations(tasks) == OperatorTokenSeq(rpn[..k])
    && (forall m :: 0 <= m < |tasks| ==> BuiltAs(tasks[m], m, expressionId, newId, times))
    && DependenciesEarlier(tasks)
    && multiset(AllDependencies(tasks)) + multiset(ArgumentIds(stack)) == multiset(Ids(tasks))
  }

  lemma OperationsStep(rpn: seq<string>, k: nat, tasks: seq<Task>, t: Task)
    requires k < |rpn| && Operations(tasks) == OperatorTokenSeq(rpn[..k])
    requires IsOperatorToken(rpn[k]) && t.operation == rpn[k]
    ensures Operations(tasks + [t]) == OperatorTokenSeq(rpn[..k + 1])
  {
    assert rpn[..k + 1] == rpn[..k] + [rpn[k]];
    assert DropLast(rpn[..k + 1]) == rpn[..k];
    assert Operations(tasks + [t]) == Operations(tasks) + [rpn[k]];
  }

  /** The dependencies of a new task are placeholders popped off the stack. */
  lemma PoppedDependencies(stack: seq<string>)
    requires |stack| >= 2
    ensures multiset(ArgumentIds(stack))
            == multiset(ArgumentIds(stack[..|stack| - 2])) + multiset(Dependencies(stack[|stack| - 1], stack[|stack| - 2]))
  {
    var arg1, arg2 := stack[|stack| - 1], stack[|stack| - 2];
    var rest, first, second := ArgumentIds(stack[..|stack| - 2]), ArgumentId(arg1), ArgumentId(arg2);
    TopArguments(stack);
    assert Dependencies(arg1, arg2) == first + second;
    assert multiset(ArgumentIds(stack)) == multiset(rest) + multiset(second) + multiset(first);
  }

  lemma TopArguments(stack: seq<string>)
    requires |stack| >= 2
    ensures ArgumentIds(stack)
            == ArgumentIds(stack[..|stack| - 2]) + ArgumentId(stack[|stack| - 2]) + ArgumentId(stack[|stack| - 1])
  {
    var below := DropLast(stack);
    assert Last(stack) == stack[|stack| - 1] && Last(below) == stack[|stack| - 2];
    assert DropLast(below) == stack[..|stack| - 2];
  }

  /** The dependencies of the task built from the two top entries are ids of tasks already built. */
  lemma NewDependenciesBuilt(tasks: seq<Task>, stack: seq<string>, t: Task)
    requires multiset(AllDependencies(tasks)) + multiset(ArgumentIds(stack)) == multiset(Ids(tasks))
    requires |stack| >= 2 && t.dependencies == Dependencies(stack[|stack| - 1], stack[|stack| - 2])
    ensures forall d :: d in t.dependencies ==> d in Ids(tasks)
  {
    PoppedDependencies(stack);
    var deps, built := multiset(t.dependencies), multiset(Ids(tasks));
    assert deps <= built;
    forall d | d in t.dependencies
      ensures d in Ids(tasks)
    {
      assert d in deps;
    }
  }

  lemma EarlierStep(tasks: seq<Task>, t: Task)
    requires DependenciesEarlier(tasks)
    requires forall d :: d in t.dependencies ==> d in Ids(tasks)
    ensures DependenciesEarlier(tasks + [t])
  {
    var tasks' := tasks + [t];
    assert tasks'[..|tasks|] == tasks;
    forall m, d | 0 <= m < |tasks'| && d in tasks'[m].dependencies
      ensures d in Ids(tasks'[..m])
    {
      if m < |tasks| {
        assert tasks'[..m] == tasks[..m];
      }
    }
  }

  lemma ArgumentIdsPush(rest: seq<string>, id: string)
    ensures ArgumentIds(rest + [Placeholder(id)]) == ArgumentIds(rest) + [id]
  {
    PlaceholderRoundTrip(id);
    assert DropLast(rest + [Placeholder(id)]) == rest;
  }

  lemma TasksAppend(tasks: seq<Task>, t: Task)
    ensures AllDependencies(tasks + [t]) == AllDependencies(tasks) + t.dependencies
    ensures Ids(tasks + [t]) == Ids(tasks) + [t.id]
  {
    assert DropLast(tasks + [t]) == tasks;
  }

  lemma ConsumptionStep(tasks: seq<Task>, stack: seq<string>, t: Task)
    requires multiset(AllDependencies(tasks)) + multiset(ArgumentIds(stack)) == multiset(Ids(tasks))
    requires |stack| >= 2 && t.dependencies == Dependencies(stack[|stack| - 1], stack[|stack| - 2])
    ensures multiset(AllDependencies(tasks + [t])) + multiset(ArgumentIds(stack[..|stack| - 2] + [Placeholder(t.id)]))
            == multiset(Ids(tasks + [t]))
  {
    var rest := stack[..|stack| - 2];
    PoppedDependencies(stack);
    ArgumentIdsPush(rest, t.id);
    TasksAppend(tasks, t);
    MovedToTask(multiset(AllDependencies(tasks)), multiset(ArgumentIds(rest)), multiset(t.dependencies),
                multiset(Ids(tasks)), t.id);
  }

  /** Accounting for one step: the popped ids move to the new task, its own id goes on the stack. */
  lemma MovedToTask(consumed: multiset<string>, rest: multiset<string>, popped: multiset<string>,
                    built: multiset<string>, id: string)
    requires consumed + (rest + popped) == built
    ensures (consumed + popped) + (rest + multiset{id}) == built + multiset{id}
  {
  }

  /** An operator token keeps the invariant. */
  lemma OperatorStep(rpn: seq<string>, k: nat, stack: seq<string>, tasks: seq<Task>,
                     expressionId: string, newId: nat -> string, times: OperationTimes)
    requires LowerInvariant(rpn, k, stack, tasks, expressionId, newId, times)
    requires k < |rpn| && IsOperatorToken(rpn[k]) && |stack| >= 2
    ensures
      var t := NewTask(newId(|tasks|), expressionId, stack[|stack| - 1], stack[|stack| - 2], rpn[k], times);
      LowerInvariant(rpn, k + 1, stack[..|stack| - 2] + [Placeholder(t.id)], tasks + [t], expressionId, newId, times)
  {
    var t := NewTask(newId(|tasks|), expressionId, stack[|stack| - 1], stack[|stack| - 2], rpn[k], times);
    OperationsStep(rpn, k, tasks, t);
    NewDependenciesBuilt(tasks, stack, t);
    EarlierStep(tasks, t);
    ConsumptionStep(tasks, stack, t);
    BuiltStep(tasks, t, expressionId, newId, times);
  }

  lemma BuiltStep(tasks: seq<Task>, t: Task, expressionId: string, newId: nat -> string, times: OperationTimes)
    requires forall m :: 0 <= m < |tasks| ==> BuiltAs(tasks[m], m, expressionId, newId, times)
    requires t == NewTask(newId(|tasks|), expressionId, t.arg1, t.arg2, t.operation, times)
    ensures forall m :: 0 <= m < |tasks + [t]| ==> BuiltAs((tasks + [t])[m], m, expressionId, newId, times)
  {
    assert |Dependencies(t.arg1, t.arg2)| <= 2;
    assert BuiltAs(t, |tasks|, expressionId, newId, times);
  }

  /** An operand token keeps the invariant. */
  lemma OperandStep(rpn: seq<string>, k: nat, stack: seq<string>, tasks: seq<Task>,
                    expressionId: string, newId: nat -> string, times: OperationTimes)
    requires LowerInvariant(rpn, k, stack, tasks, expressionId, newId, times)
    requires k < |rpn| && !IsOperatorToken(rpn[k]) && !IsPlaceholder(rpn[k])
    ensures LowerInvariant(rpn, k + 1, stack + [rpn[k]], tasks, expressionId, newId, times)
  {
    OperandTokens(rpn, k);
    OperandArgument(stack, rpn[k]);
  }

  lemma OperandTokens(rpn: seq<string>, k: nat)
    requires k < |rpn| && !IsOperatorToken(rpn[k])
    ensures OperatorTokenSeq(rpn[..k + 1]) == OperatorTokenSeq(rpn[..k])
  {
    assert DropLast(rpn[..k + 1]) == rpn[..k];
  }

  lemma OperandArgument(stack: seq<string>, tok: string)
    requires !IsPlaceholder(tok)
    ensures ArgumentIds(stack + [tok]) == ArgumentIds(stack)
  {
    assert DropLast(stack + [tok]) == stack;
  }

  /** What every successful lowering returns, from a state that satisfies the invariant. */
  lemma {:induction false} LowerFromFacts(rpn: seq<string>, k: nat, stack: seq<string>, tasks: seq<Task>,
                                          expressionId: string, newId: nat -> string, times: OperationTimes)
    requires LowerInvariant(rpn, k, stack, tasks, expressionId, newId, times)
    requires NoPlaceholderOperands(rpn)
    ensures LowerFrom(rpn, k, stack, tasks, expressionId, newId, times).Ok? ==>
      var ts := LowerFrom(rpn, k, stack, tasks, expressionId, newId, times).value;
      && Operations(ts) == OperatorTokenSeq(rpn)
      && (forall m :: 0 <= m < |ts| ==> BuiltAs(ts[m], m, expressionId, newId, times))
      && DependenciesEarlier(ts)
      && ConsumedAtMostOnce(ts)
    decreases |rpn| - k
  {
    if k == |rpn| {
      assert rpn[..k] == rpn;
    } else if IsOperatorToken(rpn[k]) {
      if |stack| >= 2 {
        OperatorStep(rpn, k, stack, tasks, expressionId, newId, times);
        var t := NewTask(newId(|tasks|), expressionId, stack[|stack| - 1], stack[|stack| - 2], rpn[k], times);
        LowerFromFacts(rpn, k + 1, stack[..|stack| - 2] + [Placeholder(t.id)], tasks + [t], expressionId, newId, times);
      }
    } else {
      OperandStep(rpn, k, stack, tasks, expressionId, newId, times);
      LowerFromFacts(rpn, k + 1, stack + [rpn[k]], tasks, expressionId, newId, times);
    }
  }

  /**
   * The lowering of postfix tokens without placeholder operands builds one
   * task per operator token, in postfix order, with the fields
   * ParseExpression gives them; every dependency is the id of an earlier
   * task and none is consumed twice.
   */
  lemma LowerFacts(rpn: seq<string>, expressionId: string, newId: nat -> string, times: OperationTimes)
    requires NoPlaceholderOperands(rpn)
    requires Lower(rpn, expressionId, newId, times).Ok?
    ensures
      var ts := Lower(rpn, expressionId, newId, times).value;
      && Operations(ts) == OperatorTokenSeq(rpn)
      && (forall m :: 0 <= m < |ts| ==> BuiltAs(ts[m], m, expressionId, newId, times))
      && DependenciesEarlier(ts)
      && ConsumedAtMostOnce(ts)
  {
    assert Operations([]) == [];
    assert rpn[..0] == [];
    LowerFromFacts(rpn, 0, [], [], expressionId, newId, times);
  }

  // ----- ErrValues -----

  lemma {:induction false} LowerFromErrors(rpn: seq<string>, k: nat, stack: seq<string>, tasks: seq<Task>,
                                           expressionId: string, newId: nat -> string, times: OperationTimes)
    requires k <= |rpn|
    ensures LowerFrom(rpn, k, stack, tasks, expressionId, newId, times).Err? <==> Underflows(rpn, k, |stack|)
    ensures LowerFrom(rpn, k, stack, tasks, expressionId, newId, times).Err? ==>
              LowerFrom(rpn, k, stack, tasks, expressionId, newId, times).error == ErrValues
    decreases |rpn| - k
  {
    if k < |rpn| {
      if IsOperatorToken(rpn[k]) {
        if |stack| >= 2 {
          var t := NewTask(newId(|tasks|), expressionId, stack[|stack| - 1], stack[|stack| - 2], rpn[k], times);
          LowerFromErrors(rpn, k + 1, stack[..|stack| - 2] + [Placeholder(t.id)], tasks + [t], expressionId, newId, times);
        }
      } else {
        LowerFromErrors(rpn, k + 1, stack + [rpn[k]], tasks, expressionId, newId, times);
      }
    }
  }

  /** The lowering fails, always with ErrValues, exactly when an operator meets fewer than two stack entries. */
  lemma LowerErrors(rpn: seq<string>, expressionId: string, newId: nat -> string, times: OperationTimes)
    ensures Lower(rpn, expressionId, newId, times).Err? <==> Underflows(rpn, 0, 0)
    ensures Lower(rpn, expressionId, newId, times).Err? ==> Lower(rpn, expressionId, newId, times).error == ErrValues
  {
    LowerFromErrors(rpn, 0, [], [], expressionId, newId, times);
  }

  // ----- the whole compiler -----

  lemma {:induction false} OperatorCount(rpn: seq<string>)
    requires RpnProofs.WellFormedTokens(rpn)
    ensures |OperatorTokenSeq(rpn)| == |RpnProofs.OperatorTokens(rpn)|
    ensures NoPlaceholderOperands(rpn)
  {
    if rpn != [] {
      assert RpnProofs.WellFormedTokens(DropLast(rpn));
      OperatorCount(DropLast(rpn));
      var tok := Last(rpn);
      if !IsOperatorToken(tok) {
        assert RpnProofs.IsNumberToken(tok);
        NumberNotPlaceholder(tok);
      }
      forall k | 0 <= k < |rpn| && !IsOperatorToken(rpn[k])
        ensures !IsPlaceholder(rpn[k])
      {
        if k < |rpn| - 1 {
          assert rpn[k] == DropLast(rpn)[k];
        }
      }
    }
  }

  /**
   * ParseExpression: a compile error of the conversion is returned as it is;
   * otherwise ErrValues exactly when an operator meets fewer than two stack
   * entries; on success one task per operator character of the input, in
   * postfix order, each built as ParseExpression builds it, with every
   * dependency naming an earlier task and no task consumed twice.
   */
  lemma ParseFacts(s: string, expressionId: string, newId: nat -> string, times: OperationTimes)
    ensures Rpn(s).Err? ==> Parse(s, expressionId, newId, times) == Err(Rpn(s).error)
    ensures Rpn(s).Ok? ==>
      (Parse(s, expressionId, newId, times).Err? <==> Underflows(Rpn(s).value, 0, 0))
    ensures Parse(s, expressionId, newId, times).Err? && Rpn(s).Ok? ==>
      Parse(s, expressionId, newId, times).error == ErrValues
    ensures Parse(s, expressionId, newId, times).Ok? ==>
      var ts := Parse(s, expressionId, newId, times).value;
      && Operations(ts) == OperatorTokenSeq(Rpn(s).value)
      && |ts| == |RpnProofs.OperatorChars(s)|
      && (forall m :: 0 <= m < |ts| ==> BuiltAs(ts[m], m, expressionId, newId, times))
      && DependenciesEarlier(ts)
      && ConsumedAtMostOnce(ts)
  {
    if Rpn(s).Ok? {
      var rpn := Rpn(s).value;
      LowerErrors(rpn, expressionId, newId, times);
      RpnProofs.RpnTokens(s);
      RpnProofs.RpnOperators(s);
      OperatorCount(rpn);
      if Lower(rpn, expressionId, newId, times).Ok? {
        LowerFacts(rpn, expressionId, newId, times);
      }
    }
  }

  /** With a generator that never repeats an id, no task is a dependency of two tasks or twice of one. */
  lemma ConsumedOnce(s: string, expressionId: string, newId: nat -> string, times: OperationTimes, d: string)
    requires forall a: nat, b: nat :: a != b ==> newId(a) != newId(b)
    requires Parse(s, expressionId, newId, times).Ok?
    ensures multiset(AllDependencies(Parse(s, expressionId, newId, times).value))[d] <= 1
  {
    ParseFacts(s, expressionId, newId, times);
    var ts := Parse(s, expressionId, newId, times).value;
    IdsOnce(ts, newId, d);
  }

  lemma {:induction false} IdsOnce(ts: seq<Task>, newId: nat -> string, d: string)
    requires forall a: nat, b: nat :: a != b ==> newId(a) != newId(b)
    requires forall m :: 0 <= m < |ts| ==> ts[m].id == newId(m)
    ensures multiset(Ids(ts))[d] <= 1
  {
    if ts != [] {
      var n := |ts| - 1;
      assert Ids(ts) == Ids(DropLast(ts)) + [ts[n].id];
      IdsOnce(DropLast(ts), newId, d);
      if ts[n].id == d {
        assert d !in Ids(DropLast(ts));
      }
    }
  }

  // ----- examples -----

  lemma ScanSpace(s: string, i: nat, c: Conversion)
    requires i < |s| && IsSpace(s[i])
    ensures ScanFrom(s, i, c) == ScanFrom(s, i + 1, c)
  {
  }

  /** A lone number, or two numbers with no operator, compile to no task and no error. */
  lemma ExampleNoOperator(expressionId: string, newId: nat -> string, times: OperationTimes)
    ensures Parse("5", expressionId, newId, times) == Ok([])
    ensures Parse("2 3", expressionId, newId, times) == Ok([])
  {
    assert RunEnd("5", 0) == 1 && "5"[0..1] == "5";
    RpnProofs.ScanNumber("5", 0, Conversion([], []), "5");
    assert [] + ["5"] == ["5"];
    assert Rpn("5") == Ok(["5"]);
    var s := "2 3";
    assert RunEnd(s, 0) == 1 && s[0..1] == "2";
    assert RunEnd(s, 2) == 3 && s[2..3] == "3";
    RpnProofs.ScanNumber(s, 0, Conversion([], []), "2");
    ScanSpace(s, 1, Conversion(["2"], []));
    RpnProofs.ScanNumber(s, 2, Conversion(["2"], []), "3");
    assert [] + ["2"] == ["2"];
    assert ["2"] + ["3"] == ["2", "3"];
    assert Rpn(s) == Ok(["2", "3"]);
  }

  /** A leading minus leaves the operator with one operand. */
  lemma ExampleUnaryMinus(expressionId: string, newId: nat -> string, times: OperationTimes)
    ensures Parse("-3", expressionId, newId, times) == Err(ErrValues)
  {
    var s := "-3";
    assert RunEnd(s, 1) == 2 && s[1..2] == "3";
    RpnProofs.ScanOperator(s, 0, Conversion([], []));
    assert AfterPush(Conversion([], []), '-') == Conversion([], ['-']);
    RpnProofs.ScanNumber(s, 1, Conversion([], ['-']), "3");
    assert [] + ["3"] == ["3"];
    var c := Conversion(["3"], ['-']);
    assert Emit(c) == Conversion(["3", "-"], []);
    assert ScanFrom(s, 2, c) == Flush(c) == Flush(Emit(c));
    assert Rpn(s) == Ok(["3", "-"]);
    assert IsOperatorToken("-");
  }

  lemma LowerOperand(rpn: seq<string>, k: nat, stack: seq<string>, tasks: seq<Task>,
                     expressionId: string, newId: nat -> string, times: OperationTimes)
    requires k < |rpn| && !IsOperatorToken(rpn[k])
    ensures LowerFrom(rpn, k, stack, tasks, expressionId, newId, times)
            == LowerFrom(rpn, k + 1, stack + [rpn[k]], tasks, expressionId, newId, times)
  {
  }

  lemma LowerOperator(rpn: seq<string>, k: nat, stack: seq<string>, tasks: seq<Task>,
                      expressionId: string, newId: nat -> string, times: OperationTimes)
    requires k < |rpn| && IsOperatorToken(rpn[k]) && |stack| >= 2
    ensures
      var t := NewTask(newId(|tasks|), expressionId, stack[|stack| - 1], stack[|stack| - 2], rpn[k], times);
      LowerFrom(rpn, k, stack, tasks, expressionId, newId, times)
      == LowerFrom(rpn, k + 1, stack[..|stack| - 2] + [Placeholder(t.id)], tasks + [t], expressionId, newId, times)
  {
  }

  /** The lowering of `2 3 4 * +`. */
  lemma ExampleLowering(expressionId: string, newId: nat -> string, times: OperationTimes)
    ensures Lower(["2", "3", "4", "*", "+"], expressionId, newId, times)
            == Ok([NewTask(newId(0), expressionId, "4", "3", "*", times),
                   NewTask(newId(1), expressionId, Placeholder(newId(0)), "2", "+", times)])
  {
    var rpn := ["2", "3", "4", "*", "+"];
    assert rpn[0] == "2" && rpn[1] == "3" && rpn[2] == "4" && rpn[3] == "*" && rpn[4] == "+";
    assert !IsOperatorToken("2") && !IsOperatorToken("3") && !IsOperatorToken("4");
    assert IsOperatorToken("*") && IsOperatorToken("+");
    var p0 := Placeholder(newId(0));
    var t0 := NewTask(newId(0), expressionId, "4", "3", "*", times);
    var t1 := NewTask(newId(1), expressionId, p0, "2", "+", times);
    LowerOperand(rpn, 0, [], [], expressionId, newId, times);
    LowerOperand(rpn, 1, ["2"], [], expressionId, newId, times);
    LowerOperand(rpn, 2, ["2", "3"], [], expressionId, newId, times);
    LowerOperator(rpn, 3, ["2", "3", "4"], [], expressionId, newId, times);
    LowerOperator(rpn, 4, ["2", p0], [t0], expressionId, newId, times);
    assert [] + ["2"] == ["2"];
    assert ["2"] + ["3"] == ["2", "3"];
    assert ["2", "3"] + ["4"] == ["2", "3", "4"];
    assert ["2", "3", "4"][..1] + [p0] == ["2", p0];
    assert ["2", p0][..0] + [Placeholder(newId(1))] == [Placeholder(newId(1))];
    assert [] + [t0] == [t0];
    assert [t0] + [t1] == [t0, t1];
  }

  /**
   * "2+3*4": the multiplication task comes first and has no dependency; the
   * addition task takes the number as `arg2` and the multiplication's
   * placeholder as `arg1` (the top of the stack), and depends on it.
   */
  lemma ExampleTasks(expressionId: string, newId: nat -> string, times: OperationTimes)
    ensures Parse("2+3*4", expressionId, newId, times).Ok?
    ensures
      var ts := Parse("2+3*4", expressionId, newId, times).value;
      && |ts| == 2
      && ts[0].operation == "*" && ts[0].arg1 == "4" && ts[0].arg2 == "3" && ts[0].dependencies == []
      && ts[1].operation == "+" && ts[1].arg1 == Placeholder(newId(0)) && ts[1].arg2 == "2"
      && ts[1].dependencies == [newId(0)]
  {
    RpnProofs.ExamplePrecedence();
    ExampleLowering(expressionId, newId, times);
    NumberNotPlaceholder("4");
    NumberNotPlaceholder("3");
    NumberNotPlaceholder("2");
    PlaceholderRoundTrip(newId(0));
    assert Dependencies("4", "3") == [];
    assert Dependencies(Placeholder(newId(0)), "2") == [newId(0)];
  }
}
