/**
 * What the shunting-yard conversion of pkg/calc/calc.go (Calc.Rpn, which
 * Calc.ConvertToRPN computes) promises:
 *  - it fails exactly when a plain left-to-right bracket counter meets a
 *    disallowed character or an unmatched bracket, and with the same error;
 *  - a successful output holds only number tokens and one-character
 *    operator tokens, never a bracket;
 *  - its number tokens are the maximal digit/dot runs of the input, in order;
 *  - it holds one operator token per operator character of the input;
 *  - pushing an operator first emits exactly the stacked operators of
 *    greater or equal priority, never a '('.
 */
module RpnProofs {
  import opened Wrappers
  import opened Calc

  // ----- reference definitions -----

  /**
   * The first error met by a scan that only counts open brackets: a
   * disallowed character, a ')' at depth 0, or brackets still open at the end.
   */
  function FirstErrorFrom(s: string, i: nat, depth: nat): Option<CalcError>
    requires i <= |s|
    decreases |s| - i
  {
    if i == |s| then (if depth == 0 then None else Some(ErrBrackets))
    else if s[i] == '(' then FirstErrorFrom(s, i + 1, depth + 1)
    else if s[i] == ')' then (if depth == 0 then Some(ErrBrackets) else FirstErrorFrom(s, i + 1, depth - 1))
    else if IsAllowed(s[i]) then FirstErrorFrom(s, i + 1, depth)
    else Some(ErrAllowed)
  }

  function FirstError(s: string): Option<CalcError> {
    FirstErrorFrom(s, 0, 0)
  }

  /** A number token: a non-empty run of digits and dots. */
  predicate IsNumberToken(tok: string) {
    tok != [] && forall k :: 0 <= k < |tok| ==> IsNumberChar(tok[k])
  }

  /** An operator token: one operator character. */
  predicate IsOperatorSymbol(tok: string) {
    |tok| == 1 && IsOperator(tok[0])
  }

  predicate WellFormedTokens(rpn: seq<string>) {
    forall k :: 0 <= k < |rpn| ==> IsNumberToken(rpn[k]) || IsOperatorSymbol(rpn[k])
  }

  /** The maximal digit/dot runs of `s` from position `i` on, in order. */
  function NumberRunsFrom(s: string, i: nat): seq<string>
    requires i <= |s|
    decreases |s| - i
  {
    if i == |s| then []
    else if IsNumberChar(s[i]) then
      var j := RunEnd(s, i);
      [s[i..j]] + NumberRunsFrom(s, j)
    else NumberRunsFrom(s, i + 1)
  }

  function NumberRuns(s: string): seq<string> {
    NumberRunsFrom(s, 0)
  }

  /** The operator characters of `s` from position `i` on. */
  function OperatorCharsFrom(s: string, i: nat): multiset<char>
    requires i <= |s|
    decreases |s| - i
  {
    if i == |s| then multiset{}
    else (if IsOperator(s[i]) then multiset{s[i]} else multiset{}) + OperatorCharsFrom(s, i + 1)
  }

  function OperatorChars(s: string): multiset<char> {
    OperatorCharsFrom(s, 0)
  }

  /** The number tokens of a token list, in order. */
  function NumberTokens(rpn: seq<string>): seq<string> {
    if rpn == [] then []
    else NumberTokens(DropLast(rpn)) + (if IsNumberToken(Last(rpn)) then [Last(rpn)] else [])
  }

  /** The operators of a token list, as ParseExpression recognises them. */
  function OperatorTokens(rpn: seq<string>): multiset<char> {
    if rpn == [] then multiset{}
    else OperatorTokens(DropLast(rpn)) + (if IsOperatorToken(Last(rpn)) then multiset{Last(rpn)[0]} else multiset{})
  }

  /** The operators (not the brackets) waiting on an operator stack. */
  function StackOperators(ops: seq<char>): multiset<char> {
    if ops == [] then multiset{}
    else StackOperators(DropLast(ops)) + (if IsOperator(Last(ops)) then multiset{Last(ops)} else multiset{})
  }

  /** The number of '(' on an operator stack. */
  function OpenCount(ops: seq<char>): nat {
    if ops == [] then 0
    else OpenCount(DropLast(ops)) + (if Last(ops) == '(' then 1 else 0)
  }

  /** The operators emitted by popping all of `ops`, top first. */
  function Emitted(ops: seq<char>): seq<string> {
    if ops == [] then [] else [[Last(ops)]] + Emitted(DropLast(ops))
  }

  // ----- the state invariant of the conversion -----

  predicate WellFormed(c: Conversion) {
    && WellFormedTokens(c.rpn)
    && forall k :: 0 <= k < |c.operators| ==> IsOperator(c.operators[k]) || c.operators[k] == '('
  }

  /** `d` holds the same brackets, number tokens and operators as `c`. */
  predicate SameAccount(c: Conversion, d: Conversion) {
    && OpenCount(d.operators) == OpenCount(c.operators)
    && NumberTokens(d.rpn) == NumberTokens(c.rpn)
    && OperatorTokens(d.rpn) + StackOperators(d.operators) == OperatorTokens(c.rpn) + StackOperators(c.operators)
  }

  lemma EmitOperator(c: Conversion)
    requires WellFormed(c) && c.operators != [] && Last(c.operators) != '('
    ensures WellFormed(Emit(c)) && SameAccount(c, Emit(c))
  {
    var d := Emit(c);
    var x := Last(c.operators);
    assert DropLast(d.rpn) == c.rpn;
    assert IsOperator(x);
    assert [x][0] == x;
    assert !IsNumberToken([x]);
    assert IsOperatorToken([x]);
  }

  lemma {:induction false} PopHigherAccount(c: Conversion, op: char)
    requires WellFormed(c) && IsOperator(op)
    ensures WellFormed(PopHigher(c, op)) && SameAccount(c, PopHigher(c, op))
    decreases |c.operators|
  {
    if c.operators != [] && Priority(Last(c.operators)) >= Priority(op) {
      EmitOperator(c);
      PopHigherAccount(Emit(c), op);
    }
  }

  lemma AfterPushAccount(c: Conversion, op: char)
    requires WellFormed(c) && IsOperator(op)
    ensures WellFormed(AfterPush(c, op))
    ensures OpenCount(AfterPush(c, op).operators) == OpenCount(c.operators)
    ensures NumberTokens(AfterPush(c, op).rpn) == NumberTokens(c.rpn)
    ensures OperatorTokens(AfterPush(c, op).rpn) + StackOperators(AfterPush(c, op).operators)
            == OperatorTokens(c.rpn) + StackOperators(c.operators) + multiset{op}
  {
    PopHigherAccount(c, op);
    var d := PopHigher(c, op);
    assert DropLast(d.operators + [op]) == d.operators;
  }

  lemma {:induction false} PopToOpenAccount(c: Conversion)
    requires WellFormed(c)
    ensures WellFormed(PopToOpen(c)) && SameAccount(c, PopToOpen(c))
    ensures PopToOpen(c).operators == [] || Last(PopToOpen(c).operators) == '('
    decreases |c.operators|
  {
    if c.operators != [] && Last(c.operators) != '(' {
      EmitOperator(c);
      PopToOpenAccount(Emit(c));
    }
  }

  lemma {:induction false} FlushResult(c: Conversion)
    requires WellFormed(c)
    ensures Flush(c).Err? <==> OpenCount(c.operators) > 0
    ensures Flush(c).Err? ==> Flush(c).error == ErrBrackets
    ensures Flush(c).Ok? ==> WellFormedTokens(Flush(c).value)
    ensures Flush(c).Ok? ==> NumberTokens(Flush(c).value) == NumberTokens(c.rpn)
    ensures Flush(c).Ok? ==> OperatorTokens(Flush(c).value) == OperatorTokens(c.rpn) + StackOperators(c.operators)
    decreases |c.operators|
  {
    if c.operators != [] {
      if Last(c.operators) == '(' {
        assert OpenCount(c.operators) > 0;
      } else {
        EmitOperator(c);
        FlushResult(Emit(c));
      }
    }
  }

  /** On ')': the stack shows a '(' to drop exactly when one is open. */
  lemma CloseBracket(c: Conversion)
    requires WellFormed(c)
    ensures PopToOpen(c).operators == [] <==> OpenCount(c.operators) == 0
    ensures PopToOpen(c).operators != [] ==>
      var d := PopToOpen(c);
      var c' := Conversion(d.rpn, DropLast(d.operators));
      && WellFormed(c')
      && OpenCount(c'.operators) == OpenCount(c.operators) - 1
      && NumberTokens(c'.rpn) == NumberTokens(c.rpn)
      && OperatorTokens(c'.rpn) + StackOperators(c'.operators) == OperatorTokens(c.rpn) + StackOperators(c.operators)
  {
    PopToOpenAccount(c);
    var d := PopToOpen(c);
    if d.operators != [] {
      var c' := Conversion(d.rpn, DropLast(d.operators));
      assert OpenCount(d.operators) == OpenCount(c'.operators) + 1;
      assert StackOperators(d.operators) == StackOperators(c'.operators);
    }
  }

  // ----- errors -----

  lemma {:induction false} FirstErrorSkipsRun(s: string, i: nat, j: nat, depth: nat)
    requires i <= j <= |s|
    requires forall k :: i <= k < j ==> IsNumberChar(s[k])
    ensures FirstErrorFrom(s, i, depth) == FirstErrorFrom(s, j, depth)
    decreases j - i
  {
    if i < j {
      FirstErrorSkipsRun(s, i + 1, j, depth);
    }
  }

  /** One round of the conversion agrees with one step of the bracket counter. */
  lemma StepErrors(s: string, i: nat, c: Conversion)
    requires i < |s| && WellFormed(c)
    ensures Step(s, i, c).Err? ==> FirstErrorFrom(s, i, OpenCount(c.operators)) == Some(Step(s, i, c).error)
    ensures Step(s, i, c).Ok? ==>
      var (j, d) := Step(s, i, c).value;
      WellFormed(d) && FirstErrorFrom(s, i, OpenCount(c.operators)) == FirstErrorFrom(s, j, OpenCount(d.operators))
  {
    var ch := s[i];
    var depth := OpenCount(c.operators);
    if IsNumberChar(ch) {
      var j := RunEnd(s, i);
      FirstErrorSkipsRun(s, i, j, depth);
      assert WellFormedTokens(c.rpn + [s[i..j]]);
    } else if IsOperator(ch) {
      AfterPushAccount(c, ch);
    } else if ch == '(' {
      var ops := c.operators + ['('];
      assert DropLast(ops) == c.operators;
    } else if ch == ')' {
      CloseBracket(c);
    }
  }

  lemma {:induction false} ScanErrors(s: string, i: nat, c: Conversion)
    requires i <= |s| && WellFormed(c)
    ensures ScanFrom(s, i, c).Err? <==> FirstErrorFrom(s, i, OpenCount(c.operators)).Some?
    ensures ScanFrom(s, i, c).Err? ==> ScanFrom(s, i, c).error == FirstErrorFrom(s, i, OpenCount(c.operators)).value
    decreases |s| - i
  {
    if i == |s| {
      FlushResult(c);
    } else {
      StepErrors(s, i, c);
      if Step(s, i, c).Ok? {
        var (j, d) := Step(s, i, c).value;
        ScanErrors(s, j, d);
      }
    }
  }

  /** The conversion fails exactly when the bracket counter does, with the same error. */
  lemma RpnErrors(s: string)
    ensures Rpn(s).Err? <==> FirstError(s).Some?
    ensures Rpn(s).Err? ==> Rpn(s).error == FirstError(s).value
  {
    ScanErrors(s, 0, Conversion([], []));
  }

  lemma {:induction false} FirstErrorReaches(s: string, i: nat, k: nat, depth: nat)
    requires i <= k < |s| && !IsAllowed(s[k])
    ensures FirstErrorFrom(s, i, depth).Some?
    decreases |s| - i
  {
    if i < k && IsAllowed(s[i]) && !(s[i] == ')' && depth == 0) {
      var depth' := if s[i] == '(' then depth + 1 else if s[i] == ')' then depth - 1 else depth;
      FirstErrorReaches(s, i + 1, k, depth');
    }
  }

  /** An input with a character outside digits, '.', operators, brackets and spaces is rejected. */
  lemma DisallowedRejected(s: string, k: nat)
    requires k < |s| && !IsAllowed(s[k])
    ensures Rpn(s).Err?
  {
    FirstErrorReaches(s, 0, k, 0);
    RpnErrors(s);
  }

  lemma {:induction false} FirstErrorAllowedWitness(s: string, i: nat, depth: nat)
    requires i <= |s| && FirstErrorFrom(s, i, depth) == Some(ErrAllowed)
    ensures exists k :: i <= k < |s| && !IsAllowed(s[k])
    decreases |s| - i
  {
    if i < |s| && IsAllowed(s[i]) {
      var depth' := if s[i] == '(' then depth + 1 else if s[i] == ')' then depth - 1 else depth;
      FirstErrorAllowedWitness(s, i + 1, depth');
    }
  }

  /** ErrAllowed is reported only for an input holding a disallowed character. */
  lemma ErrAllowedHasWitness(s: string)
    requires Rpn(s) == Err(ErrAllowed)
    ensures exists k :: 0 <= k < |s| && !IsAllowed(s[k])
  {
    RpnErrors(s);
    FirstErrorAllowedWitness(s, 0, 0);
  }

  // ----- the output -----

  lemma {:induction false} OperatorCharsSkipRun(s: string, i: nat, j: nat)
    requires i <= j <= |s|
    requires forall k :: i <= k < j ==> IsNumberChar(s[k])
    ensures OperatorCharsFrom(s, i) == OperatorCharsFrom(s, j)
    decreases j - i
  {
    if i < j {
      assert IsNumberChar(s[i]);
      assert !IsOperator(s[i]);
      assert OperatorCharsFrom(s, i) == multiset{} + OperatorCharsFrom(s, i + 1);
      OperatorCharsSkipRun(s, i + 1, j);
    }
  }

  /** Going from position `i` and state `c` to position `j` and state `d` keeps the account of number runs and operators. */
  predicate KeepsAccount(s: string, i: nat, c: Conversion, j: nat, d: Conversion)
    requires i <= |s| && j <= |s|
  {
    && WellFormed(d)
    && NumberTokens(d.rpn) + NumberRunsFrom(s, j) == NumberTokens(c.rpn) + NumberRunsFrom(s, i)
    && OperatorTokens(d.rpn) + StackOperators(d.operators) + OperatorCharsFrom(s, j)
       == OperatorTokens(c.rpn) + StackOperators(c.operators) + OperatorCharsFrom(s, i)
  }

  lemma NumberStepOutput(s: string, i: nat, c: Conversion)
    requires i < |s| && WellFormed(c) && IsNumberChar(s[i])
    ensures KeepsAccount(s, i, c, RunEnd(s, i), Conversion(c.rpn + [s[i..RunEnd(s, i)]], c.operators))
  {
    var j := RunEnd(s, i);
    var tok := s[i..j];
    var rpn := c.rpn + [tok];
    assert IsNumberToken(tok);
    assert !IsOperatorToken(tok);
    assert DropLast(rpn) == c.rpn;
    assert WellFormedTokens(rpn);
    OperatorCharsSkipRun(s, i, j);
    assert NumberRunsFrom(s, i) == [tok] + NumberRunsFrom(s, j);
    assert NumberTokens(rpn) + NumberRunsFrom(s, j) == NumberTokens(c.rpn) + NumberRunsFrom(s, i);
  }

  /** One round of the conversion keeps the account of number runs and operators. */
  lemma StepOutput(s: string, i: nat, c: Conversion)
    requires i < |s| && WellFormed(c)
    ensures Step(s, i, c).Ok? ==> KeepsAccount(s, i, c, Step(s, i, c).value.0, Step(s, i, c).value.1)
  {
    var ch := s[i];
    if IsNumberChar(ch) {
      NumberStepOutput(s, i, c);
    } else if IsOperator(ch) {
      AfterPushAccount(c, ch);
    } else if ch == '(' {
      var ops := c.operators + ['('];
      assert DropLast(ops) == c.operators;
    } else if ch == ')' {
      CloseBracket(c);
    }
  }

  lemma {:induction false} ScanOutput(s: string, i: nat, c: Conversion)
    requires i <= |s| && WellFormed(c)
    ensures ScanFrom(s, i, c).Ok? ==> WellFormedTokens(ScanFrom(s, i, c).value)
    ensures ScanFrom(s, i, c).Ok? ==>
              NumberTokens(ScanFrom(s, i, c).value) == NumberTokens(c.rpn) + NumberRunsFrom(s, i)
    ensures ScanFrom(s, i, c).Ok? ==>
              OperatorTokens(ScanFrom(s, i, c).value)
              == OperatorTokens(c.rpn) + StackOperators(c.operators) + OperatorCharsFrom(s, i)
    decreases |s| - i
  {
    if i == |s| {
      FlushResult(c);
    } else {
      StepOutput(s, i, c);
      if Step(s, i, c).Ok? {
        var (j, d) := Step(s, i, c).value;
        ScanOutput(s, j, d);
      }
    }
  }

  /** A successful output holds number tokens and one-character operator tokens only: no bracket, no empty token. */
  lemma RpnTokens(s: string)
    requires Rpn(s).Ok?
    ensures WellFormedTokens(Rpn(s).value)
    ensures forall k :: 0 <= k < |Rpn(s).value| ==> Rpn(s).value[k] != "(" && Rpn(s).value[k] != ")"
  {
    ScanOutput(s, 0, Conversion([], []));
    var r := Rpn(s).value;
    forall k | 0 <= k < |r|
      ensures r[k] != "(" && r[k] != ")"
    {
      assert "("[0] == '(' && ")"[0] == ')';
    }
  }

  /** The number tokens of the output are the maximal digit/dot runs of the input, in input order. */
  lemma RpnNumbers(s: string)
    requires Rpn(s).Ok?
    ensures NumberTokens(Rpn(s).value) == NumberRuns(s)
  {
    ScanOutput(s, 0, Conversion([], []));
  }

  /** The output holds one operator token per operator character of the input. */
  lemma RpnOperators(s: string)
    requires Rpn(s).Ok?
    ensures OperatorTokens(Rpn(s).value) == OperatorChars(s)
    ensures |OperatorTokens(Rpn(s).value)| == |OperatorChars(s)|
  {
    ScanOutput(s, 0, Conversion([], []));
  }

  // ----- precedence -----

  /**
   * The outcome of a push that stops at depth `k`: the operators above `k`
   * are emitted top first, all of them of priority at least that of `op` and
   * none a '('; the one below `k`, if any, has lower priority; `op` is stacked.
   */
  predicate PushShape(c: Conversion, op: char, k: nat) {
    && k <= |c.operators|
    && AfterPush(c, op).operators == c.operators[..k] + [op]
    && AfterPush(c, op).rpn == c.rpn + Emitted(c.operators[k..])
    && (forall m :: k <= m < |c.operators| ==> Priority(c.operators[m]) >= Priority(op) && c.operators[m] != '(')
    && (k == 0 || Priority(c.operators[k - 1]) < Priority(op))
  }

  /** Emitting one operator of priority at least that of `op` keeps the shape of a push. */
  lemma PushShapeEmit(c: Conversion, op: char, k: nat)
    requires c.operators != [] && Priority(Last(c.operators)) >= Priority(op) && IsOperator(op)
    requires PushShape(Emit(c), op, k)
    ensures PushShape(c, op, k)
  {
    var ops := c.operators;
    var e := Emit(c);
    assert AfterPush(c, op) == AfterPush(e, op);
    assert e.operators[..k] == ops[..k];
    assert DropLast(ops[k..]) == e.operators[k..];
    assert Emitted(ops[k..]) == [[Last(ops)]] + Emitted(e.operators[k..]);
    assert c.rpn + Emitted(ops[k..]) == e.rpn + Emitted(e.operators[k..]);
  }

  /**
   * pushOperator emits, top first, exactly the stacked operators of priority
   * greater than or equal to that of `op` (so operators of equal priority
   * associate to the left), stops below an operator of lower priority or a
   * '(' and then stacks `op`.
   */
  lemma {:induction false} PushPrecedence(c: Conversion, op: char)
    requires IsOperator(op)
    ensures exists k :: PushShape(c, op, k)
    decreases |c.operators|
  {
    var ops := c.operators;
    if ops != [] && Priority(Last(ops)) >= Priority(op) {
      PushPrecedence(Emit(c), op);
      var k: nat :| PushShape(Emit(c), op, k);
      PushShapeEmit(c, op, k);
    } else {
      assert ops[..|ops|] == ops;
      assert PushShape(c, op, |ops|);
    }
  }

  // ----- examples -----

  lemma ScanNumber(s: string, i: nat, c: Conversion, tok: string)
    requires i < |s| && IsNumberChar(s[i]) && tok == s[i..RunEnd(s, i)]
    ensures ScanFrom(s, i, c) == ScanFrom(s, RunEnd(s, i), Conversion(c.rpn + [tok], c.operators))
  {
  }

  lemma ScanOperator(s: string, i: nat, c: Conversion)
    requires i < |s| && IsOperator(s[i])
    ensures ScanFrom(s, i, c) == ScanFrom(s, i + 1, AfterPush(c, s[i]))
  {
  }

  /** Multiplication binds tighter than addition. */
  lemma ExamplePrecedence()
    ensures Rpn("2+3*4") == Ok(["2", "3", "4", "*", "+"])
  {
    var s := "2+3*4";
    var c5 := Conversion(["2", "3", "4"], ['+', '*']);
    PrecedenceScan();
    assert Emit(c5) == Conversion(["2", "3", "4", "*"], ['+']);
    assert Emit(Emit(c5)) == Conversion(["2", "3", "4", "*", "+"], []);
    assert ScanFrom(s, 5, c5) == Flush(c5) == Flush(Emit(c5)) == Flush(Emit(Emit(c5)));
  }

  /** The scan of "2+3*4" holds both operators on the stack when the input ends. */
  lemma PrecedenceScan()
    ensures ScanFrom("2+3*4", 0, Conversion([], [])) == ScanFrom("2+3*4", 5, Conversion(["2", "3", "4"], ['+', '*']))
  {
    var s := "2+3*4";
    assert RunEnd(s, 0) == 1 && s[0..1] == "2";
    assert RunEnd(s, 2) == 3 && s[2..3] == "3";
    assert RunEnd(s, 4) == 5 && s[4..5] == "4";
    ScanNumber(s, 0, Conversion([], []), "2");
    ScanOperator(s, 1, Conversion(["2"], []));
    assert AfterPush(Conversion(["2"], []), '+') == Conversion(["2"], ['+']);
    ScanNumber(s, 2, Conversion(["2"], ['+']), "3");
    ScanOperator(s, 3, Conversion(["2", "3"], ['+']));
    assert AfterPush(Conversion(["2", "3"], ['+']), '*') == Conversion(["2", "3"], ['+', '*']);
    ScanNumber(s, 4, Conversion(["2", "3"], ['+', '*']), "4");
    assert [] + ["2"] == ["2"];
    assert ["2"] + ["3"] == ["2", "3"];
    assert ["2", "3"] + ["4"] == ["2", "3", "4"];
  }

  /** Operators of equal priority associate to the left. */
  lemma ExampleLeftAssociative()
    ensures Rpn("8-3-2") == Ok(["8", "3", "-", "2", "-"])
  {
    var s := "8-3-2";
    assert RunEnd(s, 0) == 1 && s[0..1] == "8";
    assert RunEnd(s, 2) == 3 && s[2..3] == "3";
    assert RunEnd(s, 4) == 5 && s[4..5] == "2";
    ScanNumber(s, 0, Conversion([], []), "8");
    ScanOperator(s, 1, Conversion(["8"], []));
    assert AfterPush(Conversion(["8"], []), '-') == Conversion(["8"], ['-']);
    ScanNumber(s, 2, Conversion(["8"], ['-']), "3");
    ScanOperator(s, 3, Conversion(["8", "3"], ['-']));
    var c3 := Conversion(["8", "3"], ['-']);
    assert Emit(c3) == Conversion(["8", "3", "-"], []);
    assert PopHigher(c3, '-') == Conversion(["8", "3", "-"], []);
    assert AfterPush(c3, '-') == Conversion(["8", "3", "-"], ['-']);
    ScanNumber(s, 4, Conversion(["8", "3", "-"], ['-']), "2");
    var c5 := Conversion(["8", "3", "-", "2"], ['-']);
    assert Emit(c5) == Conversion(["8", "3", "-", "2", "-"], []);
    assert [] + ["8"] == ["8"];
    assert ["8"] + ["3"] == ["8", "3"];
    assert ["8", "3", "-"] + ["2"] == ["8", "3", "-", "2"];
    assert ScanFrom(s, 5, c5) == Flush(c5) == Flush(Emit(c5));
  }

  /** A bracket left open fails. */
  lemma ExampleUnclosed()
    ensures Rpn("(2+3") == Err(ErrBrackets)
  {
    var s := "(2+3";
    assert FirstErrorFrom(s, 1, 1) == FirstErrorFrom(s, 4, 1);
    RpnErrors(s);
  }

  /** A closing bracket without an opening one fails. */
  lemma ExampleUnopened()
    ensures Rpn("2+3)") == Err(ErrBrackets)
  {
    var s := "2+3)";
    assert FirstErrorFrom(s, 0, 0) == FirstErrorFrom(s, 3, 0);
    RpnErrors(s);
  }

  /** A letter fails. */
  lemma ExampleDisallowed()
    ensures Rpn("2+a") == Err(ErrAllowed)
  {
    var s := "2+a";
    assert FirstErrorFrom(s, 0, 0) == FirstErrorFrom(s, 2, 0);
    RpnErrors(s);
  }
}
