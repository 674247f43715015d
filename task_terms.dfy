/**
 * The meaning of the compiled tasks: reading each task as the operation
 * applied to `arg2` (left) and `arg1` (right), with a placeholder argument
 * standing for the term of the task it names, the last task built for a
 * postfix list ending in an operator denotes the same term as the usual
 * evaluation of that postfix list.
 */
module TaskTerms {
  import opened Wrappers
  import opened Config
  import opened Calc
  import RpnProofs
  import TaskProofs

  /** An arithmetic term over the token strings. */
  datatype Term = Literal(text: string) | Apply(op: string, left: Term, right: Term)

  /** Postfix evaluation into terms from token `k` on: an operator pops its right operand, then its left one. */
  function PostfixFrom(rpn: seq<string>, k: nat, stack: seq<Term>): Option<seq<Term>>
    requires k <= |rpn|
    decreases |rpn| - k
  {
    if k == |rpn| then Some(stack)
    else if IsOperatorToken(rpn[k]) then
      if |stack| < 2 then None
      else PostfixFrom(rpn, k + 1, stack[..|stack| - 2] + [Apply(rpn[k], stack[|stack| - 2], stack[|stack| - 1])])
    else PostfixFrom(rpn, k + 1, stack + [Literal(rpn[k])])
  }

  function Postfix(rpn: seq<string>): Option<seq<Term>> {
    PostfixFrom(rpn, 0, [])
  }

  /** The index of the last of the first `m` tasks with the id, or -1. */
  function Find(ts: seq<Task>, m: nat, id: string): (j: int)
    requires m <= |ts|
    ensures -1 <= j < m
    ensures j >= 0 ==> ts[j].id == id
    ensures j == -1 ==> forall i :: 0 <= i < m ==> ts[i].id != id
  {
    if m == 0 then -1
    else if ts[m - 1].id == id then m - 1
    else Find(ts, m - 1, id)
  }

  /** The term task `m` computes: its operation on `arg2` and `arg1`, in that order. */
  function TaskTerm(ts: seq<Task>, m: nat): Term
    requires m < |ts|
    decreases m, 1
  {
    Apply(ts[m].operation, ArgTerm(ts, m, ts[m].arg2), ArgTerm(ts, m, ts[m].arg1))
  }

  /** The term an argument stands for, seen from task `m`: an earlier task's term for its placeholder, else the literal. */
  function ArgTerm(ts: seq<Task>, m: nat, arg: string): Term
    requires m <= |ts|
    decreases m, 0
  {
    if IsPlaceholder(arg) && Find(ts, m, ExtractTaskId(arg)) >= 0 then TaskTerm(ts, Find(ts, m, ExtractTaskId(arg)))
    else Literal(arg)
  }

  // ----- extending the task list does not change earlier meanings -----

  lemma {:induction false} FindStable(ts: seq<Task>, ts': seq<Task>, m: nat, id: string)
    requires m <= |ts| <= |ts'| && ts'[..|ts|] == ts
    ensures Find(ts', m, id) == Find(ts, m, id)
    decreases m
  {
    if m > 0 {
      assert ts'[m - 1] == ts[m - 1];
      FindStable(ts, ts', m - 1, id);
    }
  }

  lemma {:induction false} TaskTermStable(ts: seq<Task>, ts': seq<Task>, m: nat)
    requires m < |ts| <= |ts'| && ts'[..|ts|] == ts
    ensures TaskTerm(ts', m) == TaskTerm(ts, m)
    decreases m, 1
  {
    assert ts'[m] == ts[m];
    ArgTermStable(ts, ts', m, ts[m].arg2);
    ArgTermStable(ts, ts', m, ts[m].arg1);
  }

  lemma {:induction false} ArgTermStable(ts: seq<Task>, ts': seq<Task>, m: nat, arg: string)
    requires m <= |ts| <= |ts'| && ts'[..|ts|] == ts
    ensures ArgTerm(ts', m, arg) == ArgTerm(ts, m, arg)
    decreases m, 0
  {
    if IsPlaceholder(arg) {
      FindStable(ts, ts', m, ExtractTaskId(arg));
      var j := Find(ts, m, ExtractTaskId(arg));
      if j >= 0 {
        TaskTermStable(ts, ts', j);
      }
    }
  }

  // ----- the lowering loop keeps the argument stack and the term stack in step -----

  /** Each argument-stack entry stands for the term at the same depth. */
  predicate Denotes(tasks: seq<Task>, stack: seq<string>, terms: seq<Term>) {
    |stack| == |terms| && forall p :: 0 <= p < |stack| ==> ArgTerm(tasks, |tasks|, stack[p]) == terms[p]
  }

  /** After an operator token the top of the argument stack is the last task's placeholder. */
  predicate TopIsLastTask(rpn: seq<string>, k: nat, stack: seq<string>, tasks: seq<Task>)
    requires k <= |rpn|
  {
    k > 0 && IsOperatorToken(rpn[k - 1]) ==> tasks != [] && stack != [] && Last(stack) == Placeholder(Last(tasks).id)
  }

  /** Every placeholder on the argument stack names one of the tasks built so far. */
  predicate PlaceholdersBuilt(tasks: seq<Task>, stack: seq<string>) {
    forall p :: 0 <= p < |stack| && IsPlaceholder(stack[p]) ==> Find(tasks, |tasks|, ExtractTaskId(stack[p])) >= 0
  }

  /** An operator step: the new task denotes the operation on the two popped terms, and the entries below keep theirs. */
  lemma OperatorDenotes(tasks: seq<Task>, stack: seq<string>, terms: seq<Term>, t: Task, newId: nat -> string)
    requires forall a: nat, b: nat :: a != b ==> newId(a) != newId(b)
    requires forall m :: 0 <= m < |tasks| ==> tasks[m].id == newId(m)
    requires Denotes(tasks, stack, terms) && PlaceholdersBuilt(tasks, stack) && |stack| >= 2
    requires t.id == newId(|tasks|) && t.arg1 == stack[|stack| - 1] && t.arg2 == stack[|stack| - 2]
    ensures
      var n := |stack|;
      var stack' := stack[..n - 2] + [Placeholder(t.id)];
      && Denotes(tasks + [t], stack', terms[..n - 2] + [Apply(t.operation, terms[n - 2], terms[n - 1])])
      && PlaceholdersBuilt(tasks + [t], stack')
  {
    var n, tasks' := |stack|, tasks + [t];
    var stack' := stack[..n - 2] + [Placeholder(t.id)];
    var terms' := terms[..n - 2] + [Apply(t.operation, terms[n - 2], terms[n - 1])];
    assert tasks'[..|tasks|] == tasks;
    // the new task means the operation on the two popped terms
    ArgTermStable(tasks, tasks', |tasks|, t.arg2);
    ArgTermStable(tasks, tasks', |tasks|, t.arg1);
    assert tasks'[|tasks|] == t;
    assert TaskTerm(tasks', |tasks|) == Apply(t.operation, terms[n - 2], terms[n - 1]);
    TaskProofs.PlaceholderRoundTrip(t.id);
    assert Find(tasks', |tasks'|, t.id) == |tasks|;
    assert ArgTerm(tasks', |tasks'|, stack'[n - 2]) == terms'[n - 2];
    // the entries below keep their meaning
    forall p | 0 <= p < n - 2
      ensures ArgTerm(tasks', |tasks'|, stack'[p]) == terms'[p]
      ensures IsPlaceholder(stack'[p]) ==> Find(tasks', |tasks'|, ExtractTaskId(stack'[p])) >= 0
    {
      var arg := stack[p];
      assert stack'[p] == arg && terms'[p] == terms[p];
      if IsPlaceholder(arg) {
        var id := ExtractTaskId(arg);
        var j := Find(tasks, |tasks|, id);
        assert newId(j) != newId(|tasks|);
        FindStable(tasks, tasks', |tasks|, id);
        assert Find(tasks', |tasks'|, id) == j;
        TaskTermStable(tasks, tasks', j);
      }
    }
  }

  /** An operand step: the literal pushed denotes itself. */
  lemma OperandDenotes(tasks: seq<Task>, stack: seq<string>, terms: seq<Term>, tok: string)
    requires Denotes(tasks, stack, terms) && PlaceholdersBuilt(tasks, stack)
    requires !IsPlaceholder(tok)
    ensures Denotes(tasks, stack + [tok], terms + [Literal(tok)])
    ensures PlaceholdersBuilt(tasks, stack + [tok])
  {
    var stack', terms' := stack + [tok], terms + [Literal(tok)];
    forall p | 0 <= p < |stack'|
      ensures ArgTerm(tasks, |tasks|, stack'[p]) == terms'[p]
    {
      if p < |stack| {
        assert stack'[p] == stack[p] && terms'[p] == terms[p];
      }
    }
  }

  /** The last task, read through its placeholders, is the top term. */
  predicate LastDenotesTop(ts: seq<Task>, top: seq<Term>) {
    ts != [] && top != [] && TaskTerm(ts, |ts| - 1) == Last(top)
  }

  /** An operator token keeps everything LowerFromDenotes needs of its state. */
  lemma OperatorStepDenotes(rpn: seq<string>, k: nat, tasks: seq<Task>, stack: seq<string>, terms: seq<Term>,
                            t: Task, newId: nat -> string)
    requires k < |rpn| && IsOperatorToken(rpn[k])
    requires forall a: nat, b: nat :: a != b ==> newId(a) != newId(b)
    requires forall m :: 0 <= m < |tasks| ==> tasks[m].id == newId(m)
    requires Denotes(tasks, stack, terms) && PlaceholdersBuilt(tasks, stack) && |stack| >= 2
    requires t.id == newId(|tasks|) && t.arg1 == stack[|stack| - 1] && t.arg2 == stack[|stack| - 2]
    requires t.operation == rpn[k]
    ensures
      var n := |stack|;
      var stack', tasks' := stack[..n - 2] + [Placeholder(t.id)], tasks + [t];
      var terms' := terms[..n - 2] + [Apply(rpn[k], terms[n - 2], terms[n - 1])];
      && (forall m :: 0 <= m < |tasks'| ==> tasks'[m].id == newId(m))
      && Denotes(tasks', stack', terms') && PlaceholdersBuilt(tasks', stack')
      && TopIsLastTask(rpn, k + 1, stack', tasks')
  {
    OperatorDenotes(tasks, stack, terms, t, newId);
  }

  /** When the tokens end in an operator, the last task denotes the top term. */
  lemma FinalDenotes(rpn: seq<string>, stack: seq<string>, tasks: seq<Task>, terms: seq<Term>)
    requires Denotes(tasks, stack, terms) && TopIsLastTask(rpn, |rpn|, stack, tasks)
    ensures rpn != [] && IsOperatorToken(Last(rpn)) ==>
      tasks != [] && terms != [] && TaskTerm(tasks, |tasks| - 1) == Last(terms)
  {
    if rpn != [] && IsOperatorToken(Last(rpn)) {
      var n := |tasks| - 1;
      TaskProofs.PlaceholderRoundTrip(tasks[n].id);
      assert Find(tasks, |tasks|, tasks[n].id) == n;
      assert ArgTerm(tasks, |tasks|, Last(stack)) == TaskTerm(tasks, n);
    }
  }

  /**
   * From a state where the argument stack denotes the term stack, lowering
   * succeeds exactly when postfix evaluation does, and when the last token
   * is an operator the last task denotes the top term.
   */
  lemma {:induction false} LowerFromDenotes(rpn: seq<string>, k: nat, stack: seq<string>, tasks: seq<Task>,
                                            terms: seq<Term>, expressionId: string, newId: nat -> string,
                                            times: OperationTimes)
    requires k <= |rpn|
    requires TaskProofs.NoPlaceholderOperands(rpn)
    requires forall a: nat, b: nat :: a != b ==> newId(a) != newId(b)
    requires forall m :: 0 <= m < |tasks| ==> tasks[m].id == newId(m)
    requires Denotes(tasks, stack, terms) && PlaceholdersBuilt(tasks, stack)
    requires TopIsLastTask(rpn, k, stack, tasks)
    ensures LowerFrom(rpn, k, stack, tasks, expressionId, newId, times).Ok? <==> PostfixFrom(rpn, k, terms).Some?
    ensures LowerFrom(rpn, k, stack, tasks, expressionId, newId, times).Ok? && rpn != [] && IsOperatorToken(Last(rpn)) ==>
      LastDenotesTop(LowerFrom(rpn, k, stack, tasks, expressionId, newId, times).value, PostfixFrom(rpn, k, terms).value)
    decreases |rpn| - k, 1
  {
    if k == |rpn| {
      FinalDenotes(rpn, stack, tasks, terms);
    } else if IsOperatorToken(rpn[k]) {
      OperatorTokenDenotes(rpn, k, stack, tasks, terms, expressionId, newId, times);
    } else {
      OperandDenotes(tasks, stack, terms, rpn[k]);
      LowerFromDenotes(rpn, k + 1, stack + [rpn[k]], tasks, terms + [Literal(rpn[k])], expressionId, newId, times);
    }
  }

  /** The operator case of LowerFromDenotes. */
  lemma {:induction false} OperatorTokenDenotes(rpn: seq<string>, k: nat, stack: seq<string>, tasks: seq<Task>,
                                                terms: seq<Term>, expressionId: string, newId: nat -> string,
                                                times: OperationTimes)
    requires k < |rpn| && IsOperatorToken(rpn[k])
    requires TaskProofs.NoPlaceholderOperands(rpn)
    requires forall a: nat, b: nat :: a != b ==> newId(a) != newId(b)
    requires forall m :: 0 <= m < |tasks| ==> tasks[m].id == newId(m)
    requires Denotes(tasks, stack, terms) && PlaceholdersBuilt(tasks, stack)
    requires TopIsLastTask(rpn, k, stack, tasks)
    ensures LowerFrom(rpn, k, stack, tasks, expressionId, newId, times).Ok? <==> PostfixFrom(rpn, k, terms).Some?
    ensures LowerFrom(rpn, k, stack, tasks, expressionId, newId, times).Ok? && rpn != [] && IsOperatorToken(Last(rpn)) ==>
      LastDenotesTop(LowerFrom(rpn, k, stack, tasks, expressionId, newId, times).value, PostfixFrom(rpn, k, terms).value)
    decreases |rpn| - k, 0
  {
    if |stack| >= 2 {
      var t := NewTask(newId(|tasks|), expressionId, stack[|stack| - 1], stack[|stack| - 2], rpn[k], times);
      var n := |stack|;
      var stack', tasks' := stack[..n - 2] + [Placeholder(t.id)], tasks + [t];
      var terms' := terms[..n - 2] + [Apply(rpn[k], terms[n - 2], terms[n - 1])];
      OperatorStepDenotes(rpn, k, tasks, stack, terms, t, newId);
      LowerFromDenotes(rpn, k + 1, stack', tasks', terms', expressionId, newId, times);
      assert LowerFrom(rpn, k, stack, tasks, expressionId, newId, times)
             == LowerFrom(rpn, k + 1, stack', tasks', expressionId, newId, times);
      assert PostfixFrom(rpn, k, terms) == PostfixFrom(rpn, k + 1, terms');
    }
  }

  /**
   * ParseExpression computes the expression's postfix evaluation: with a
   * generator that never repeats an id, the compilation succeeds exactly
   * when the postfix evaluation of the converted tokens does, and when the
   * tokens end in an operator the last task, read through its placeholders,
   * is the top term of that evaluation.
   */
  lemma ParseDenotes(s: string, expressionId: string, newId: nat -> string, times: OperationTimes)
    requires forall a: nat, b: nat :: a != b ==> newId(a) != newId(b)
    requires Rpn(s).Ok?
    ensures Parse(s, expressionId, newId, times).Ok? <==> Postfix(Rpn(s).value).Some?
    ensures Parse(s, expressionId, newId, times).Ok? && Rpn(s).value != [] && IsOperatorToken(Last(Rpn(s).value)) ==>
      var ts := Parse(s, expressionId, newId, times).value;
      var top := Postfix(Rpn(s).value).value;
      ts != [] && top != [] && TaskTerm(ts, |ts| - 1) == Last(top)
  {
    var rpn := Rpn(s).value;
    RpnProofs.RpnTokens(s);
    TaskProofs.OperatorCount(rpn);
    LowerFromDenotes(rpn, 0, [], [], [], expressionId, newId, times);
  }

  /** "2+3*4": the last task denotes 2 + (3 * 4), with each number on its own side. */
  lemma ExampleTerm(expressionId: string, newId: nat -> string, times: OperationTimes)
    ensures Parse("2+3*4", expressionId, newId, times).Ok?
    ensures
      var ts := Parse("2+3*4", expressionId, newId, times).value;
      |ts| == 2 && TaskTerm(ts, 1) == Apply("+", Literal("2"), Apply("*", Literal("3"), Literal("4")))
  {
    RpnProofs.ExamplePrecedence();
    TaskProofs.ExampleLowering(expressionId, newId, times);
    var ts := [NewTask(newId(0), expressionId, "4", "3", "*", times),
               NewTask(newId(1), expressionId, Placeholder(newId(0)), "2", "+", times)];
    assert Parse("2+3*4", expressionId, newId, times) == Ok(ts);
    TaskProofs.NumberNotPlaceholder("2");
    TaskProofs.NumberNotPlaceholder("3");
    TaskProofs.NumberNotPlaceholder("4");
    TaskProofs.PlaceholderRoundTrip(newId(0));
    assert Find(ts, 1, newId(0)) == 0;
    assert TaskTerm(ts, 0) == Apply("*", Literal("3"), Literal("4"));
  }
}
