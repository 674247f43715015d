/**
 * The expression compiler of pkg/calc/calc.go: a shunting-yard conversion
 * of infix text into postfix tokens (ConvertToRPN) and the lowering of the
 * postfix tokens into a list of binary tasks (ParseExpression).
 *
 * Each of the two imperative routines is proved equal to a specification
 * function (Rpn and Parse) that follows the same steps on values; what
 * those functions promise is proved in RpnProofs and TaskProofs.
 *
 * The input string stands for the bytes of the Go string: the source reads
 * it byte by byte and classifies each byte as a rune with unicode.IsDigit
 * and unicode.IsSpace, which on the Latin-1 range are IsDigit and IsSpace
 * below.
 */
module Calc {
  import opened Config

  /** The error values the core produces (ErrDivisionByZero is never produced). */
  datatype CalcError = ErrBrackets | ErrValues | ErrAllowed

  datatype Result<T> = Ok(value: T) | Err(error: CalcError)

  // ----- character classes and the priority table -----

  predicate IsOperator(c: char) {
    c == '+' || c == '-' || c == '*' || c == '/'
  }

  /** The priority table; a character missing from it reads as 0, like a Go map lookup. */
  function Priority(c: char): (p: int)
    ensures p == 0 <==> !IsOperator(c)
    ensures c == '+' || c == '-' ==> p == 1
    ensures c == '*' || c == '/' ==> p == 2
    ensures IsOperator(c) ==> (p == 2 <==> c == '*' || c == '/')
  {
    if c == '+' || c == '-' then 1
    else if c == '*' || c == '/' then 2
    else 0
  }

  predicate IsDigit(c: char) {
    '0' <= c <= '9'
  }

  /** A character that belongs to a number token. */
  predicate IsNumberChar(c: char) {
    IsDigit(c) || c == '.'
  }

  predicate IsSpace(c: char) {
    c == ' ' || c == '\t' || c == '\n' || c == '\U{000B}' || c == '\U{000C}' || c == '\r'
    || c == '\U{0085}' || c == '\U{00A0}'
  }

  /** The characters the conversion accepts. */
  predicate IsAllowed(c: char) {
    IsNumberChar(c) || IsOperator(c) || c == '(' || c == ')' || IsSpace(c)
  }

  // ----- placeholders -----

  const PlaceholderPrefix: string := "task_"
  const PlaceholderSuffix: string := "_result"

  predicate HasPrefix(s: string, p: string) {
    |p| <= |s| && s[..|p|] == p
  }

  predicate HasSuffix(s: string, p: string) {
    |p| <= |s| && s[|s| - |p|..] == p
  }

  function TrimPrefix(s: string, p: string): (r: string)
    ensures HasPrefix(s, p) ==> p + r == s
    ensures !HasPrefix(s, p) ==> r == s
  {
    if HasPrefix(s, p) then s[|p|..] else s
  }

  function TrimSuffix(s: string, p: string): (r: string)
    ensures HasSuffix(s, p) ==> r + p == s
    ensures !HasSuffix(s, p) ==> r == s
  {
    if HasSuffix(s, p) then s[..|s| - |p|] else s
  }

  /** The argument that stands for the result of the task `id`. */
  function Placeholder(id: string): string {
    PlaceholderPrefix + id + PlaceholderSuffix
  }

  predicate IsPlaceholder(arg: string) {
    HasPrefix(arg, PlaceholderPrefix) && HasSuffix(arg, PlaceholderSuffix)
  }

  function ExtractTaskId(placeholder: string): string {
    TrimSuffix(TrimPrefix(placeholder, PlaceholderPrefix), PlaceholderSuffix)
  }

  // ----- infix to postfix -----

  function Last<T>(s: seq<T>): T
    requires s != []
  {
    s[|s| - 1]
  }

  function DropLast<T>(s: seq<T>): seq<T>
    requires s != []
  {
    s[..|s| - 1]
  }

  /** The two pieces of state of the conversion: the output and the operator stack (top last). */
  datatype Conversion = Conversion(rpn: seq<string>, operators: seq<char>)

  /** Moves the top operator to the output. */
  function Emit(c: Conversion): Conversion
    requires c.operators != []
  {
    Conversion(c.rpn + [[Last(c.operators)]], DropLast(c.operators))
  }

  /** The loop of pushOperator: emits stacked operators of priority at least that of `op`. */
  function PopHigher(c: Conversion, op: char): Conversion
    decreases |c.operators|
  {
    if c.operators != [] && Priority(Last(c.operators)) >= Priority(op) then PopHigher(Emit(c), op)
    else c
  }

  /** pushOperator. */
  function AfterPush(c: Conversion, op: char): Conversion {
    var d := PopHigher(c, op);
    Conversion(d.rpn, d.operators + [op])
  }

  /** The loop run on ')': emits operators until the stack is empty or shows '('. */
  function PopToOpen(c: Conversion): Conversion
    decreases |c.operators|
  {
    if c.operators != [] && Last(c.operators) != '(' then PopToOpen(Emit(c)) else c
  }

  /** The end of the number token that starts at `i`. */
  function RunEnd(s: string, i: nat): (j: nat)
    requires i <= |s|
    ensures i <= j <= |s|
    ensures forall k :: i <= k < j ==> IsNumberChar(s[k])
    ensures j == |s| || !IsNumberChar(s[j])
    decreases |s| - i
  {
    if i < |s| && IsNumberChar(s[i]) then RunEnd(s, i + 1) else i
  }

  /** The final loop: emits every stacked operator and fails on a '(' left open. */
  function Flush(c: Conversion): Result<seq<string>>
    decreases |c.operators|
  {
    if c.operators == [] then Ok(c.rpn)
    else if Last(c.operators) == '(' then Err(ErrBrackets)
    else Flush(Emit(c))
  }

  /**
   * One round of the main loop of convertToRPN at position `i`: the position
   * and state the next round starts from, or the error that ends the loop.
   */
  function Step(s: string, i: nat, c: Conversion): (r: Result<(nat, Conversion)>)
    requires i < |s|
    ensures r.Ok? ==> i < r.value.0 <= |s|
  {
    var ch := s[i];
    if IsNumberChar(ch) then
      var j := RunEnd(s, i);
      Ok((j, Conversion(c.rpn + [s[i..j]], c.operators)))
    else if IsOperator(ch) then Ok((i + 1, AfterPush(c, ch)))
    else if ch == '(' then Ok((i + 1, Conversion(c.rpn, c.operators + ['('])))
    else if ch == ')' then
      var d := PopToOpen(c);
      if d.operators == [] then Err(ErrBrackets)
      else Ok((i + 1, Conversion(d.rpn, DropLast(d.operators))))
    else if IsSpace(ch) then Ok((i + 1, c))
    else Err(ErrAllowed)
  }

  /** The conversion from position `i` on, in state `c`. */
  function ScanFrom(s: string, i: nat, c: Conversion): Result<seq<string>>
    requires i <= |s|
    decreases |s| - i
  {
    if i == |s| then Flush(c)
    else
      match Step(s, i, c)
      case Err(e) => Err(e)
      case Ok((j, d)) => ScanFrom(s, j, d)
  }

  /** convertToRPN, as a function. */
  function Rpn(s: string): Result<seq<string>> {
    ScanFrom(s, 0, Conversion([], []))
  }

  /** The closure pushOperator of convertToRPN, on the conversion's two variables. */
  method PushOperator(rpn: seq<string>, operators: seq<char>, op: char)
    returns (rpn': seq<string>, operators': seq<char>)
    ensures Conversion(rpn', operators') == AfterPush(Conversion(rpn, operators), op)
  {
    rpn', operators' := rpn, operators;
    while |operators'| > 0 && Priority(operators'[|operators'| - 1]) >= Priority(op)
      invariant PopHigher(Conversion(rpn', operators'), op) == PopHigher(Conversion(rpn, operators), op)
      decreases |operators'|
    {
      rpn' := rpn' + [[operators'[|operators'| - 1]]];
      operators' := operators'[..|operators'| - 1];
    }
    operators' := operators' + [op];
  }

  /** convertToRPN: the shunting-yard conversion of `expression` into postfix tokens. */
  method ConvertToRPN(expression: string) returns (r: Result<seq<string>>)
    ensures r == Rpn(expression)
  {
    var rpn: seq<string> := [];
    var operators: seq<char> := [];
    var i := 0;
    while i < |expression|
      invariant 0 <= i <= |expression|
      invariant ScanFrom(expression, i, Conversion(rpn, operators)) == Rpn(expression)
      decreases |expression| - i
    {
      var ch := expression[i];
      if IsNumberChar(ch) {
        var j := i;
        while i < |expression| && IsNumberChar(expression[i])
          invariant j <= i <= |expression|
          invariant RunEnd(expression, i) == RunEnd(expression, j)
          decreases |expression| - i
        {
          i := i + 1;
        }
        rpn := rpn + [expression[j..i]];
        continue;
      }
      if IsOperator(ch) {
        rpn, operators := PushOperator(rpn, operators, ch);
      } else if ch == '(' {
        operators := operators + ['('];
      } else if ch == ')' {
        ghost var before := Conversion(rpn, operators);
        while |operators| > 0 && operators[|operators| - 1] != '('
          invariant PopToOpen(Conversion(rpn, operators)) == PopToOpen(before)
          decreases |operators|
        {
          rpn := rpn + [[operators[|operators| - 1]]];
          operators := operators[..|operators| - 1];
        }
        if |operators| == 0 {
          return Err(ErrBrackets);
        }
        operators := operators[..|operators| - 1];
      } else if !IsSpace(ch) {
        return Err(ErrAllowed);
      }
      i := i + 1;
    }
    while |operators| > 0
      invariant Flush(Conversion(rpn, operators)) == Rpn(expression)
      decreases |operators|
    {
      if operators[|operators| - 1] == '(' {
        return Err(ErrBrackets);
      }
      rpn := rpn + [[operators[|operators| - 1]]];
      operators := operators[..|operators| - 1];
    }
    return Ok(rpn);
  }
  // ----- postfix to tasks -----

  /**
   * getOperationTime: the configured duration of an operation token, 0 for
   * any other token. The source reads the configuration from the environment
   * on every call; here the values are a parameter.
   */
  function OperationTime(times: OperationTimes, op: string): (t: int)
    ensures op == "+" ==> t == times.addition
    ensures op == "-" ==> t == times.subtraction
    ensures op == "*" ==> t == times.multiplication
    ensures op == "/" ==> t == times.division
    ensures op !in ["+", "-", "*", "/"] ==> t == 0
  {
    if op == "+" then times.addition
    else if op == "-" then times.subtraction
    else if op == "*" then times.multiplication
    else if op == "/" then times.division
    else 0
  }

  /**
   * The test ParseExpression applies to a token: its first character is an
   * operator. The source indexes the token's first byte, which would fail on
   * an empty token; the conversion never produces one (RpnProofs.RpnTokens).
   */
  predicate IsOperatorToken(tok: string) {
    tok != [] && IsOperator(tok[0])
  }

  /** The dependencies recovered from a task's arguments, `arg1`'s first. */
  function Dependencies(arg1: string, arg2: string): seq<string> {
    (if IsPlaceholder(arg1) then [ExtractTaskId(arg1)] else [])
    + (if IsPlaceholder(arg2) then [ExtractTaskId(arg2)] else [])
  }

  /** The task built for the operator `op` applied to the two popped arguments. */
  function NewTask(id: string, expressionId: string, arg1: string, arg2: string, op: string,
                   times: OperationTimes): Task
  {
    Task(id, expressionId, arg1, arg2, op, OperationTime(times, op), Pending, 0.0,
         Dependencies(arg1, arg2))
  }

  /**
   * The lowering loop of ParseExpression from token `k` on, with argument
   * stack `stack` (top last) and the tasks built so far. The n-th task built
   * gets the identifier `newId(n)`, the n-th identifier of the generator.
   */
  function LowerFrom(rpn: seq<string>, k: nat, stack: seq<string>, tasks: seq<Task>,
                     expressionId: string, newId: nat -> string, times: OperationTimes): Result<seq<Task>>
    requires k <= |rpn|
    decreases |rpn| - k
  {
    if k == |rpn| then Ok(tasks)
    else if IsOperatorToken(rpn[k]) then
      if |stack| < 2 then Err(ErrValues)
      else
        var t := NewTask(newId(|tasks|), expressionId, stack[|stack| - 1], stack[|stack| - 2], rpn[k], times);
        LowerFrom(rpn, k + 1, stack[..|stack| - 2] + [Placeholder(t.id)], tasks + [t],
                  expressionId, newId, times)
    else LowerFrom(rpn, k + 1, stack + [rpn[k]], tasks, expressionId, newId, times)
  }

  /** The lowering of a whole postfix sequence. */
  function Lower(rpn: seq<string>, expressionId: string, newId: nat -> string, times: OperationTimes): Result<seq<Task>> {
    LowerFrom(rpn, 0, [], [], expressionId, newId, times)
  }

  /** ParseExpression, as a function. */
  function Parse(expression: string, expressionId: string, newId: nat -> string, times: OperationTimes): Result<seq<Task>> {
    match Rpn(expression)
    case Err(e) => Err(e)
    case Ok(rpn) => Lower(rpn, expressionId, newId, times)
  }

  /** ParseExpression: compiles `expression` into the tasks of the expression `expressionId`. */
  method ParseExpression(expression: string, expressionId: string, newId: nat -> string, times: OperationTimes)
    returns (r: Result<seq<Task>>)
    ensures r == Parse(expression, expressionId, newId, times)
  {
    var converted := ConvertToRPN(expression);
    if converted.Err? {
      return Err(converted.error);
    }
    var rpn := converted.value;
    var tasks: seq<Task> := [];
    var stack: seq<string> := [];
    for k := 0 to |rpn|
      invariant LowerFrom(rpn, k, stack, tasks, expressionId, newId, times) == Lower(rpn, expressionId, newId, times)
    {
      var elem := rpn[k];
      if IsOperatorToken(elem) {
        if |stack| < 2 {
          return Err(ErrValues);
        }
        var arg1, arg2 := stack[|stack| - 1], stack[|stack| - 2];
        stack := stack[..|stack| - 2];
        var taskId := newId(|tasks|);
        var dependencies: seq<string> := [];
        if IsPlaceholder(arg1) {
          dependencies := dependencies + [ExtractTaskId(arg1)];
        }
        if IsPlaceholder(arg2) {
          dependencies := dependencies + [ExtractTaskId(arg2)];
        }
        assert dependencies == Dependencies(arg1, arg2);
        tasks := tasks + [Task(taskId, expressionId, arg1, arg2, elem, OperationTime(times, elem),
                               Pending, 0.0, dependencies)];
        stack := stack + [Placeholder(taskId)];
      } else {
        stack := stack + [elem];
      }
    }
    return Ok(tasks);
  }
}
