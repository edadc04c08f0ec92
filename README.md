# Brakeman's command-injection check, in Dafny

This project models `Brakeman::CheckExecute`, the Brakeman rule that reports
possible command injection in a Rails application. The rule has two entry
points that share one reporting path.

- **Call sites.** `run_check` asks the tracker for every call to `exec`,
  `popen`, `popen3`, `syscall` or `system` whose receiver is `IO`, `Open3`,
  `Kernel` or absent. It hands each result to `process_result`. For
  `system` and `exec` only the first argument is tested; for the other methods
  the whole argument list is tested. A call fails when the tested part holds
  user input or string interpolation. A failing call that is not a duplicate
  is registered and reported. Its confidence is medium when `@string_interp`
  is set, and high otherwise.
- **Backtick literals.** Before the calls, `check_for_backticks` walks every
  method body and then every template. Each interpolated backtick literal
  (`:dxstr`) that was not reported yet is registered and reported. Its
  confidence is high when it holds user input, and medium otherwise. The
  warning carries the template being walked or, outside templates, the class
  and method being walked. These come from the fields `@current_set`,
  `@current_method` and `@current_template`.

Files:

- `sexp.dfy`: the parsed program as s-expressions (`Sexps`), plus `Options`.
- `facts.dfy`: what the rule is given (`Facts`) and the warnings it emits
  (`Warnings`).
- `execute_model.dfy`: each operation as a function from the check's state
  to its new state (`ExecuteModel`).
- `check_execute.dfy`: the check object (`CheckExecute.ExecuteCheck`). It is a
  class with the Ruby object's fields, and it runs the same loops as the Ruby
  code. Each method is proved to leave exactly the state that the matching
  `ExecuteModel` function gives.
- `execute_properties.dfy`: what the rule promises, proved about the model
  (`ExecuteProperties`).

The base check's taint predicates and duplicate identity are the fields of
`Facts.Env`. They are arbitrary functions, so every property holds whatever
they answer. The tracker's answers are the sequences and the query function of
`Facts.Tracker`.

How the model reads the code:

- `process` is the s-expression walk. It hands each `:dxstr` node to
  `process_dxstr` and does not descend into it. It returns its argument
  unchanged. `process_result` also runs `process call[3]`, so the same walk
  covers the argument list. A backtick literal inside a call's arguments that
  was not yet reported is reported there. It carries the context that
  `check_for_backticks` left behind: no template, no class, and the last
  method visited.
- `include_interp?` leaves its verdict in `@string_interp`. The `||` on lines
  36 and 38 skips `include_interp?` when user input is found. The confidence
  of that call then follows whatever an earlier call left in the flag
  (`StaleFlagCarriesOver`).
- Three behaviours of the code a reader may not expect. The model follows
  the code in each.
  - User input does not by itself make a call warning high confidence.
  - `system` and `exec` test `args[1]` whatever the number of arguments.
  - Call-site results and backtick literals share one store of reported
    locations (`@results` through `add_result`). Whether their keys can
    collide is up to the base check.

## Model

| member | source | states |
|---|---|---|
| `CheckExecute.ExecuteCheck.RunCheck` | lib/brakeman/checks/check_execute.rb:15-26 | the run leaves the state `ExecuteModel.Run` gives: backtick scan first, then every result of the `find_call` query once, in the order returned |
| `CheckExecute.ExecuteCheck.ProcessResult` | lib/brakeman/checks/check_execute.rb:29-57 | processing one result leaves exactly the state `ExecuteModel.ResultStep` gives |
| `CheckExecute.ExecuteCheck.CheckForBackticks` | lib/brakeman/checks/check_execute.rb:62-79 | both loops, with the context assignments and the two resets, leave the state `ExecuteModel.Backticks` gives |
| `CheckExecute.ExecuteCheck.Process` | lib/brakeman/checks/check_execute.rb:67 | the walk returns its argument unchanged and leaves the state `ExecuteModel.Walk` gives |
| `CheckExecute.ExecuteCheck.ProcessDxstr` | lib/brakeman/checks/check_execute.rb:82-109 | returns its argument unchanged on both paths and leaves the state `ExecuteModel.Dxstr` gives |
| `CheckExecute.ExecuteCheck.IncludeInterp` | lib/brakeman/checks/check_execute.rb:36 | returns the interpolation verdict and leaves it in `@string_interp`, changing nothing else |
| `CheckExecute.ExecuteCheck.AddResult` | lib/brakeman/checks/check_execute.rb:42 | registers the item's location and changes nothing else |
| `CheckExecute.ExecuteCheck.Warn` | lib/brakeman/checks/check_execute.rb:50-55 | appends the warning and changes nothing else |
| `ExecuteModel.BacktickWarning` | lib/brakeman/checks/check_execute.rb:87-104 | type "Command Injection", message "Possible command injection", line and code of the literal; confidence high iff user input, medium otherwise; carries the current template if one is set, otherwise the current class and method, never both |
| `ExecuteModel.Dxstr` | lib/brakeman/checks/check_execute.rb:83-106 | an already reported literal leaves the state unchanged; otherwise its location is registered and exactly its backtick warning, built in the current context, is appended; the context and the flag are untouched |
| `ExecuteModel.CallWarning` | lib/brakeman/checks/check_execute.rb:50-55 | a call warning carries the result, the call's line, the call as code, type "Command Injection", message "Possible command injection", and no template, class or method |
| `ExecuteProperties.DxstrAllEffect` | lib/brakeman/checks/check_execute.rb:83-106 | literals handled in turn are all registered; each one not reported before gets a warning, and every newly registered location is warned; only backtick warnings for them are appended, in the starting context; the context and flag are untouched; nothing changes if all were reported |
| `ExecuteProperties.WalkEffect` | lib/brakeman/checks/check_execute.rb:82-108 | walking a tree registers every backtick literal in it and warns about each one not reported before; it appends only backtick warnings for those literals, in the context it was called in; nothing changes when all of them were already reported |
| `ExecuteProperties.WalkTwice` | lib/brakeman/checks/check_execute.rb:83 | walking the same tree again changes nothing: each literal is reported once |
| `ExecuteProperties.RunKeepsKeysUnique` | lib/brakeman/checks/check_execute.rb:41-42 | a run keeps the deduplication invariant: every warning's location is registered and no two warnings share one |
| `ExecuteProperties.ScanMethodsEffect` | lib/brakeman/checks/check_execute.rb:63-68 | each method's literals are reported with that method's class and name and no template; the context ends on the last method; every literal of every method body is registered, and each one not reported before is warned about |
| `ExecuteProperties.ScanTemplatesEffect` | lib/brakeman/checks/check_execute.rb:72-76 | each template's literals are reported with that template and no class or method; every literal of every template is registered, and each one not reported before is warned about |
| `ExecuteProperties.BackticksEffect` | lib/brakeman/checks/check_execute.rb:62-79 | after the scan `@current_set` and `@current_template` are nil, `@current_method` names the last method; every literal of every method and template is registered, and each one not reported before is warned about; each new warning carries exactly one of class+method or template, taken from the body it was found in; all method warnings precede all template warnings |
| `ExecuteProperties.ShellVerdictDependsOnlyOnFirstArg` | lib/brakeman/checks/check_execute.rb:34-36 | two `system` (or two `exec`) calls whose first arguments agree get the same verdict, whatever their other arguments and however many there are |
| `ExecuteProperties.ShellVerdictIgnoresLaterArgs` | lib/brakeman/checks/check_execute.rb:35-36 | for `system` and `exec`, replacing any argument after the first leaves the verdict unchanged |
| `ExecuteProperties.ResultStepEffect` | lib/brakeman/checks/check_execute.rb:36-56 | a call warning is appended and the location registered iff failure holds and the result is not a duplicate; otherwise the store and warnings are those the argument walk left; the flag changes only when `include_interp?` runs |
| `ExecuteProperties.NonFailingResultChangesNothing` | lib/brakeman/checks/check_execute.rb:41 | a non-failing result whose arguments hold no unreported literal changes neither the store nor the warnings |
| `ExecuteProperties.ResultStepTwice` | lib/brakeman/checks/check_execute.rb:41-42 | processing the same result again adds no warning and registers nothing |
| `ExecuteProperties.CallConfidence` | lib/brakeman/checks/check_execute.rb:36-48 | without user input, a call warning is medium; with user input, it is medium iff `@string_interp` was already set |
| `ExecuteProperties.StaleFlagCarriesOver` | lib/brakeman/checks/check_execute.rb:44-48 | after an interpolation-only call, a call with user input is reported medium, not high |
| `ExecuteProperties.ResultStepRegisters` | lib/brakeman/checks/check_execute.rb:32-56 | one result only adds; a failing result ends up registered; every location it registers is warned about in the same step, so a failing result not reported before gets a warning |
| `ExecuteProperties.ResultsAllEffect` | lib/brakeman/checks/check_execute.rb:23-25 | the results loop leaves the context alone, only appends, and every call warning it adds is for a failing result of the loop; conversely every failing result is registered and, unless reported before the loop, warned about |
| `ExecuteProperties.ResultsAllAppend` | lib/brakeman/checks/check_execute.rb:23-25 | the loop over `a + b` is the loop over `a` followed by the loop over `b`: results are processed in the order returned |
| `ExecuteProperties.RunEffect` | lib/brakeman/checks/check_execute.rb:15-25 | the backtick scan's warnings form a prefix that holds no call warning, so they precede all call warnings; every call warning is for a failing result of the query, and every failing result of the query not reported before the run is warned about; with a sound tracker, its receiver is `IO`, `Open3`, `Kernel` or none and its method one of the five |
| `ExecuteProperties.SystemWithUserInput` | lib/brakeman/checks/check_execute.rb:8 | `system("rf -rf #{params[:file]}")` with user input yields exactly one high-confidence warning for the call |
| `ExecuteProperties.TemplateBacktickWithoutUserInput` | lib/brakeman/checks/check_execute.rb:10 | an interpolated backtick literal in a template, without user input, yields exactly one medium warning that carries the template and no class or method |

## Left out

- `lib/brakeman/checks/check_send_file.rb`: its only logic is one `find_call`
  query and a loop that hands each result to `CheckFileAccess`.
  `CheckFileAccess` is not part of this model.
- `Brakeman::Checks.add self` (line 12): registration with the scanner's
  list of checks. It happens at load time and is not check behaviour.
- `debug_info` (lines 16, 19, 22): logging only.
- `include_user_input?` and `include_interp?`: their taint analysis belongs to
  the base check, which is not part of this model. They are the uninterpreted
  `Env.userInput` and `Env.interp`. They are pure verdicts. Anything the base
  check's own walk does while answering them is not modelled.
- `duplicate?` and `add_result`: the identity they compare is the
  uninterpreted `Env.keyOf` of the result or expression. The base check may
  also read the context fields to build it. That dependence is not modelled.
- `warn`: the warning hash is appended to a sequence. Whatever the base check
  and the report derive from it later is not modelled.
- `process`: only the dispatch to `process_dxstr` is modelled. The base
  check's other node handlers, and any flags they set while walking, are not
  part of this model. They are taken to return each node unchanged and to
  descend into every child, left to right. A handler that stopped at some
  node would hide the backtick literals below it, and a handler that
  visited children in another order would change the order of the
  warnings.
- Call shape: every call result is taken to hold its argument list, an
  `s(:arglist, …)` node, at `call[3]` (`Sexps.CallSexp`). The code does not
  check this; if `process call[3]` returned nil, `args[1]` on line 36 would
  raise, and that error path is not modelled.
- `tracker.find_call`, `each_method` and `each_template`: the tracker is a
  query function and two sequences. How call sites, methods and templates are
  found is not modelled.
- `@string_interp` holds a match object or `false` in Ruby. Only its
  truthiness is used, so it is a `bool` here.
- Concurrency: the check runs sequentially, and nothing in it blocks or
  runs in parallel.
