# Parallel arithmetic calculator: compiler and task repository

This project models the core of a distributed calculator written in Go.

The first part is the **expression compiler** (`pkg/calc/calc.go`):
- `convertToRPN` turns an infix expression into postfix tokens with a shunting-yard algorithm.
- `ParseExpression` lowers those tokens into a list of binary-operation tasks.
- A task that consumes another task's result refers to it by the placeholder string `task_<id>_result` and lists that id among its dependencies.

The second part is the **orchestrator's repository** (`internal/orchestrator/orchestrator.go`):
- It is an in-memory store of expressions and tasks, each keyed by id.
- `GetPendingTask` hands out a pending task whose dependencies have all completed.
- `UpdateTaskStatus` records a task's new status and recomputes the status of the expression that owns the task.

Modules:
- `Config` (config.dfy): the `Task` and `Expression` records and the status strings.
- `Calc` (calc.dfy): the compiler.
  - `ConvertToRPN`, `PushOperator` and `ParseExpression` are written with the loops of the Go code.
  - Each is proved equal to a function on values: `Rpn` and `Parse`.
- `RpnProofs`, `TaskProofs` and `TaskTerms`: what those functions promise, proved against independent reference definitions:
  - a bracket-depth scan;
  - maximal digit runs;
  - a stack-height count;
  - postfix evaluation into terms.
- `Orchestrator` (orchestrator.dfy):
  - The store transitions are functions on a `Store` value.
  - The `Repository` class keeps the two maps as fields. Its methods are the Go loops, proved to perform exactly those transitions.
  - The `Application` class delegates to the repository.
- `StoreProofs`: the frame and status-propagation properties of the transitions, and a store invariant that every transition keeps.

Modelling choices:
- Input text is a sequence of characters, one per byte of the Go string. `unicode.IsDigit` and `unicode.IsSpace` are applied to each byte as a rune. So the model recognises:
  - the digits 0-9;
  - the white space characters tab, LF, VT, FF, CR, space, U+0085 and U+00A0.
- Identifiers from `uuid` become parameters:
  - `newId(n)` is the id of the n-th task built by one compilation;
  - the expression id is an argument.
  - Lemmas that need fresh ids assume that `newId` never repeats itself, nor an id already stored.
- `getOperationTime` reads its durations from the environment. Here it takes them from an `OperationTimes` record.
- A `float64` result is only copied by the core and is modelled as `real`.
- Go's `error` results are an `Option` of the error kind.

An "error" update of a task marks every expression that lists the task "error" (internal/orchestrator/orchestrator.go:89-97). The recomputation that follows then sets the owning expression "pending" (orchestrator.go:120-122), so the mark never survives on the owner (`StoreProofs.ErrorNotKept`).

## Model

| member | source | states |
|---|---|---|
| Calc.Priority | pkg/calc/calc.go:14-20 | `+ -` have priority 1, `* /` priority 2, and `(` (or any other character, as a missing map key) priority 0 |
| Calc.TrimPrefix | pkg/calc/calc.go:78 | removes the prefix exactly when the string starts with it, otherwise returns the string unchanged |
| Calc.TrimSuffix | pkg/calc/calc.go:78 | removes the suffix exactly when the string ends with it, otherwise returns the string unchanged |
| Calc.RunEnd | pkg/calc/calc.go:116-121 | a number token extends over digits and dots and ends at the first other character or at the end of the input |
| Calc.Step | pkg/calc/calc.go:113-145 | one step of the scan either fails or advances the position by at least one character |
| Calc.PushOperator | pkg/calc/calc.go:104-110 | the loop pops and emits the stacked operators of priority at least that of the new operator, then pushes it, as `AfterPush` specifies |
| Calc.ConvertToRPN | pkg/calc/calc.go:100-157 | the imperative conversion (number runs, operators, brackets, white space, the final flush) returns exactly `Rpn(expression)` |
| Calc.OperationTime | pkg/calc/calc.go:85-98 | each of `+ - * /` takes its own configured duration, and any other token takes 0 |
| Calc.ParseExpression | pkg/calc/calc.go:22-71 | the imperative lowering, with its argument stack and task list, returns exactly `Parse(expression, ...)` |
| RpnProofs.RpnErrors | pkg/calc/calc.go:128-150 | the conversion fails exactly when a left-to-right bracket-depth scan finds an error, and with the same kind: `ErrBrackets` for a `)` without an open `(` or a `(` left open, `ErrAllowed` for a character outside the allowed set |
| RpnProofs.DisallowedRejected | pkg/calc/calc.go:139-142 | an input containing any character other than a digit, `.`, `+ - * /`, a bracket or white space is rejected |
| RpnProofs.ErrAllowedHasWitness | pkg/calc/calc.go:139-142 | `ErrAllowed` is returned only when the input contains a disallowed character |
| RpnProofs.RpnTokens | pkg/calc/calc.go:121-153 | on success every token is a non-empty number run or a one-character operator, and no token is a bracket |
| RpnProofs.RpnNumbers | pkg/calc/calc.go:116-123 | on success the number tokens are exactly the maximal digit/dot runs of the input, in input order |
| RpnProofs.RpnOperators | pkg/calc/calc.go:126-153 | on success the operator tokens are, as a multiset, the operator characters of the input, one token per character |
| RpnProofs.PushPrecedence | pkg/calc/calc.go:104-110 | a push emits, top first, exactly the stacked operators of priority at least that of the new operator; it stops below a lower-priority operator or a `(`, and never pops a `(` |
| RpnProofs.ExamplePrecedence | pkg/calc/calc.go:104-110 | `"2+3*4"` converts to `2 3 4 * +` |
| RpnProofs.ExampleLeftAssociative | pkg/calc/calc.go:105 | `"8-3-2"` converts to `8 3 - 2 -`: operators of equal priority associate to the left |
| RpnProofs.ExampleUnclosed | pkg/calc/calc.go:147-150 | `"(2+3"` fails with `ErrBrackets`: an opening bracket is still on the stack when the input ends |
| RpnProofs.ExampleUnopened | pkg/calc/calc.go:130-137 | `"2+3)"` fails with `ErrBrackets`: a closing bracket empties the stack without finding its opening one |
| RpnProofs.ExampleDisallowed | pkg/calc/calc.go:139-142 | `"2+a"` fails with `ErrAllowed`: a character that is neither a number, an operator, a bracket nor white space |
| TaskProofs.PlaceholderRoundTrip | pkg/calc/calc.go:63-79 | the placeholder of any id is recognised as a placeholder, and `extractTaskID` gives the id back |
| TaskProofs.PlaceholderOfExtracted | pkg/calc/calc.go:73-79 | a recognised placeholder long enough for both affixes is the placeholder of the id extracted from it |
| TaskProofs.NumberNotPlaceholder | pkg/calc/calc.go:73-75 | a token that starts with a digit or a dot is never taken for a placeholder |
| TaskProofs.LowerFacts | pkg/calc/calc.go:32-68 | a successful lowering builds one task per operator token, in postfix order. Each task has the token as operation, the n-th generated id, the given expression id, status "pending", the configured duration, and dependencies recovered from its arguments, at most two. Every dependency names an earlier task, and no id is consumed more often than it is built |
| TaskProofs.LowerErrors | pkg/calc/calc.go:33-36 | the lowering fails, always with `ErrValues`, exactly when an independent stack-height count finds an operator with fewer than two operands |
| TaskProofs.ParseFacts | pkg/calc/calc.go:22-71 | a conversion error is returned unchanged; otherwise `ErrValues` exactly when the stack-height count underflows; on success one task per operator character of the input, with all the task properties above |
| TaskProofs.ConsumedOnce | pkg/calc/calc.go:37-64 | when the id generator never repeats itself, no task id occurs twice among all dependencies |
| TaskProofs.ExampleNoOperator | pkg/calc/calc.go:65-70 | `"5"` and `"2 3"` compile to no task and no error: the leftover stack is never checked |
| TaskProofs.ExampleUnaryMinus | pkg/calc/calc.go:34-36 | `"-3"` fails with `ErrValues` |
| TaskProofs.ExampleTasks | pkg/calc/calc.go:37-50 | for `"2+3*4"` the `*` task comes first, with `Arg1` "4" (the top of the stack), `Arg2` "3" and no dependency; the `+` task has `Arg1` the placeholder of the first task, `Arg2` "2", and depends on the first task |
| TaskTerms.LowerFromDenotes | pkg/calc/calc.go:32-68 | lowering succeeds exactly when postfix evaluation does. When the last token is an operator, the last task, read as its operation on `Arg2` (left) and `Arg1` (right) with placeholders standing for their tasks, denotes the top term of the postfix evaluation |
| TaskTerms.ParseDenotes | pkg/calc/calc.go:22-71 | the same, for a whole expression: the task graph computes what evaluating the postfix form computes |
| TaskTerms.ExampleTerm | pkg/calc/calc.go:37-64 | for `"2+3*4"` the last task denotes `2 + (3 * 4)` |
| Orchestrator.Recomputed | internal/orchestrator/orchestrator.go:103-123 | recomputing an expression's status keeps its id and its task list |
| Orchestrator.Repository.AddExpression | internal/orchestrator/orchestrator.go:11-22 | stores the expression under its id, then each of its tasks under the task's id, a later one winning |
| Orchestrator.Repository.GetExpressionByID | internal/orchestrator/orchestrator.go:24-31 | returns the stored expression exactly when its id is a key, and nothing otherwise |
| Orchestrator.Repository.GetAllExpressions | internal/orchestrator/orchestrator.go:32-43 | returns every stored expression exactly once, in some order of the distinct keys; the length equals the number of keys |
| Orchestrator.Repository.GetTaskByID | internal/orchestrator/orchestrator.go:45-52 | returns the stored task exactly when its id is a key, and nothing otherwise |
| Orchestrator.Repository.GetPendingTask | internal/orchestrator/orchestrator.go:54-64 | returns only a stored "pending" task whose dependencies are all stored and "completed"; returns nothing only when no stored task is like that |
| Orchestrator.Repository.AllDependenciesCompleted | internal/orchestrator/orchestrator.go:66-74 | true exactly when every listed dependency is stored and "completed" |
| Orchestrator.Repository.AllTasksCompleted | internal/orchestrator/orchestrator.go:103-110 | the early-exit scan over an expression's tasks (also at lines 138-146) is true exactly when every listed task is stored and "completed" |
| Orchestrator.Repository.UpdateTaskStatus | internal/orchestrator/orchestrator.go:76-126 | performs exactly the `AfterTaskUpdate` transition: the task update, the "error" marking and the owner's recomputation |
| Orchestrator.Repository.MarkFailed | internal/orchestrator/orchestrator.go:89-97 | marks "error" every expression whose task list has the id, and no other |
| Orchestrator.Repository.UpdateExpressionStatus | internal/orchestrator/orchestrator.go:128-164 | performs exactly the `AfterExpressionUpdate` transition |
| Orchestrator.Application.AddExpression | internal/orchestrator/orchestrator.go:166-181 | on a compile error returns "" and the error, and leaves the store unchanged; otherwise returns the new id and stores a "pending" expression holding the compiled tasks |
| Orchestrator.Application.GetExpressionByID | internal/orchestrator/orchestrator.go:183-185 | delegates: the stored expression exactly when the id is a key |
| Orchestrator.Application.GetAllExpressions | internal/orchestrator/orchestrator.go:187-189 | delegates: every stored expression exactly once |
| Orchestrator.Application.GetPendingTask | internal/orchestrator/orchestrator.go:191-193 | delegates: an eligible task, or nothing only when there is none |
| Orchestrator.Application.UpdateTaskStatus | internal/orchestrator/orchestrator.go:195-197 | delegates: the `AfterTaskUpdate` transition |
| StoreProofs.IndexedFacts | internal/orchestrator/orchestrator.go:18-21 | storing the tasks adds exactly their ids as keys and leaves every other key alone; with distinct ids every task is retrievable by its id |
| StoreProofs.AddedFacts | internal/orchestrator/orchestrator.go:11-22 | after an insertion the expression is stored under its id, every other expression and every task with another id is unchanged, and with distinct task ids every task of the expression is retrievable |
| StoreProofs.AddKeepsInvariant | internal/orchestrator/orchestrator.go:11-22 | adding an expression with a fresh non-empty id keeps the store invariant, provided its tasks have fresh distinct ids and name it as owner. The invariant: keys are ids; every task's owner is stored and lists it; every listed task is stored and owned by its lister |
| StoreProofs.ParsedAddKeepsInvariant | internal/orchestrator/orchestrator.go:166-181 | adding a compiled expression keeps the invariant, given fresh ids, and makes every compiled task retrievable by its id |
| StoreProofs.FirstTaskRunnable | internal/orchestrator/orchestrator.go:54-73 | after a compiled expression with at least one task is added, its first task is one `GetPendingTask` may return, since it depends on nothing |
| StoreProofs.TaskUpdateFrame | internal/orchestrator/orchestrator.go:80-98 | an unknown task id changes nothing. Otherwise the task takes the new status, and takes the result only with "completed"; its other fields, all other tasks and all keys are unchanged. An expression that neither owns the task nor, in an "error" update, lists it is unchanged. In an "error" update every other expression listing the task is marked "error" |
| StoreProofs.OwnerRecomputed | internal/orchestrator/orchestrator.go:100-125 | the owner becomes "completed", with the result of its last task, exactly when all its tasks are stored and completed afterwards; otherwise it becomes "pending" and keeps its previous result. In particular, an update of one of its tasks to any status other than "completed" leaves it "pending" |
| StoreProofs.ErrorNotKept | internal/orchestrator/orchestrator.go:89-122 | under the invariant an "error" update changes no expression but the owner, and the owner ends up "pending": no expression keeps the "error" mark |
| StoreProofs.InvariantGuards | internal/orchestrator/orchestrator.go:112 | under the invariant `UpdateTaskStatus` never indexes an empty task list, because the owner lists the task |
| StoreProofs.TaskUpdateKeepsInvariant | internal/orchestrator/orchestrator.go:76-126 | `UpdateTaskStatus` keeps the store invariant |
| StoreProofs.ExpressionUpdateFacts | internal/orchestrator/orchestrator.go:128-164 | an unknown id changes nothing. Otherwise only that expression changes: it becomes "completed", with its last task's result, exactly when every task is stored and completed, and "pending" otherwise. No task changes, and the invariant is kept |
| StoreProofs.DependenciesCompletedFacts | internal/orchestrator/orchestrator.go:66-74 | `allDependenciesCompleted` holds for no dependency, fails when any dependency is missing or not "completed", and is decided one dependency after another |

## Left out

- Configuration loading (`LoadConfig`, environment variables, `.env` files) is not modelled. The operation durations are an `OperationTimes` argument.
- `uuid` generation is replaced by the `newId` parameter and the expression-id argument. Freshness is a hypothesis of the lemmas that need it, not a check of the code.
- The mutex `r.mu` is not modelled, and neither is the fact that `AddExpression` inserts tasks without holding it. The repository is modelled as a sequential object.
- Logging and printing (`log.Printf`, `fmt.Printf`, `fmt.Println`) are not modelled.
- The message wrapping of `fmt.Errorf` is not modelled: an error is its kind, which `errors.Is` still recovers in the code.
- `ErrDivisionByZero` is declared but never produced by the core, so it is not modelled.
- Float arithmetic is not modelled: the agent that computes results is not part of this model, and results are only copied.
- Go's map iteration order is not modelled. `GetAllExpressions` and `GetPendingTask` choose keys in an unspecified order, and their contracts hold for every order.
- Orchestrator.Repository.GetExpressionByID: the model's expression is a value whose task list is a copy taken when the expression was added. In the code `expr.Tasks` shares the `*Task` pointers with the task map, so later task updates show through the expression. The core itself reads only ids from that list; the current state of a task is what `GetTaskByID` returns.
- Orchestrator.Repository.UpdateTaskStatus requires `TaskUpdateGuard`: the owner, when stored and named, has at least one task. Without it the code panics on `Tasks[len-1]`. `StoreProofs.InvariantGuards` shows that the guard always holds under the store invariant.
- Orchestrator.Repository.UpdateExpressionStatus requires `ExpressionUpdateGuard`, for the same panic. Nothing in the code ensures that guard: an expression without operators, such as `"5"`, is stored with no tasks.
- Calc.ParseExpression: `isOperator(rune(elem[0]))` would panic on an empty token. `RpnProofs.RpnTokens` shows that the conversion never produces one, so the model tests `tok != []` instead.
- Input bytes are not decoded as UTF-8. The source indexes the string byte by byte, so a multi-byte character is several characters here, one per byte. Its lead byte (0xC2 to 0xF4) is outside the allowed set, so the character yields `ErrAllowed` unless an earlier error comes first, as in the code. Some continuation bytes, such as 0x85 and 0xA0, are white space for `unicode.IsSpace` and would be skipped on their own.
- The HTTP entry points, handlers and agent workers are not modelled. They are not part of the core.
