/**
  The command-injection check (`Brakeman::CheckExecute`) as functions on
  the check's state: what each of its operations leaves behind, given the
  state it starts from. The class in check_execute.dfy is proved to do
  exactly this; the lemmas in execute_properties.dfy state what it means.
*/
module ExecuteModel {
  import opened Options
  import opened Sexps
  import opened Facts
  import opened Warnings

  /** `@current_set`, `@current_method` and `@current_template`. */
  datatype Context = Context(
    currentSet: Option<Name>,
    currentMethod: Option<Name>,
    currentTemplate: Option<Template>)

  /**
    Everything the check changes: the keys registered with `add_result`,
    the warnings passed to `warn`, the context fields and `@string_interp`.
  */
  datatype CheckState = CheckState(
    reported: set<Key>,
    warnings: seq<Warning>,
    ctx: Context,
    stringInterp: bool)

  /** A check object before its first run: nothing reported, every field nil. */
  const Initial := CheckState({}, [], Context(None, None, None), false)

  /** The `find_call` query of `run_check`. */
  const ExecTargets: seq<Option<Name>> := [Some("IO"), Some("Open3"), Some("Kernel"), None]
  const ExecMethods: seq<Name> := ["exec", "popen", "popen3", "syscall", "system"]
  const ExecQuery := CallQuery(ExecTargets, ExecMethods)

  /** The identity under which the base check remembers a warning's location. */
  function WarningKey(env: Env, w: Warning): Key
  {
    match w.result
    case Some(r) => env.keyOf(CallItem(r))
    case None => env.keyOf(ExpItem(w.code))
  }

  /**
    The deduplication invariant: every warning's location is registered,
    and no two warnings share one.
  */
  ghost predicate KeysUnique(env: Env, st: CheckState)
  {
    && (forall i | 0 <= i < |st.warnings| :: WarningKey(env, st.warnings[i]) in st.reported)
    && (forall i, j | 0 <= i < j < |st.warnings| :: WarningKey(env, st.warnings[i]) != WarningKey(env, st.warnings[j]))
  }

  // ---------------------------------------------------------------------
  // Backticks: process_dxstr and the walk that reaches it
  // ---------------------------------------------------------------------

  /** The warning `process_dxstr` builds for the literal `exp` in context `ctx`. */
  function BacktickWarning(env: Env, ctx: Context, exp: Sexp): (w: Warning)
    requires IsDxstr(exp)
    ensures w.result == None && w.code == exp && w.line == exp.line
    ensures w.warningType == CommandInjection && w.message == PossibleCommandInjection
    ensures w.confidence == High <==> env.userInput(exp)
    ensures w.confidence == Medium <==> !env.userInput(exp)
    ensures w.template == ctx.currentTemplate
    ensures w.template.Some? <==> w.classAndMethod.None?
    ensures w.classAndMethod.Some? ==> w.classAndMethod.value == ClassMethod(ctx.currentSet, ctx.currentMethod)
  {
    var confidence := if env.userInput(exp) then High else Medium;
    Warning(None, CommandInjection, PossibleCommandInjection, exp.line, exp, confidence,
      ctx.currentTemplate,
      if ctx.currentTemplate.Some? then None else Some(ClassMethod(ctx.currentSet, ctx.currentMethod)))
  }

  /** `process_dxstr exp`: nothing if already reported, else register the literal and warn once. */
  function Dxstr(env: Env, st: CheckState, exp: Sexp): (r: CheckState)
    requires IsDxstr(exp)
    ensures r.ctx == st.ctx && r.stringInterp == st.stringInterp
    ensures r.reported == st.reported + {env.keyOf(ExpItem(exp))}
    ensures env.keyOf(ExpItem(exp)) in st.reported ==> r == st
    ensures env.keyOf(ExpItem(exp)) !in st.reported ==> r.warnings == st.warnings + [BacktickWarning(env, st.ctx, exp)]
  {
    var key := env.keyOf(ExpItem(exp));
    if key in st.reported then st
    else st.(reported := st.reported + {key}, warnings := st.warnings + [BacktickWarning(env, st.ctx, exp)])
  }

  /**
    `process e`: a depth-first, left-to-right walk that hands every backtick
    literal to `process_dxstr` and does not look inside it.
  */
  function Walk(env: Env, st: CheckState, e: Sexp): CheckState
    decreases e, 1
  {
    if IsDxstr(e) then Dxstr(env, st, e)
    else if e.Node? then WalkFrom(env, st, e, 0)
    else st
  }

  /** The walk over the elements `e.elems[i..]`. */
  function WalkFrom(env: Env, st: CheckState, e: Sexp, i: nat): CheckState
    requires e.Node? && i <= |e.elems|
    decreases e, 0, |e.elems| - i
  {
    if i == |e.elems| then st else WalkFrom(env, Walk(env, st, e.elems[i]), e, i + 1)
  }

  /** `process_dxstr` applied to each literal of `ds` in turn. */
  function DxstrAll(env: Env, st: CheckState, ds: seq<Sexp>): CheckState
    requires forall d <- ds :: IsDxstr(d)
    decreases |ds|
  {
    if ds == [] then st else DxstrAll(env, Dxstr(env, st, ds[0]), ds[1..])
  }

  /** The locations of a sequence of literals. */
  function KeysOf(env: Env, ds: seq<Sexp>): set<Key>
  {
    set d | d in ds :: env.keyOf(ExpItem(d))
  }

  // ---------------------------------------------------------------------
  // check_for_backticks
  // ---------------------------------------------------------------------

  /** The two assignments at the head of the `each_method` block. */
  function EnterMethod(st: CheckState, m: MethodBody): CheckState
  {
    st.(ctx := st.ctx.(currentSet := Some(m.setName), currentMethod := Some(m.methodName)))
  }

  /** The `each_method` loop over the methods `ms`. */
  function ScanMethods(env: Env, st: CheckState, ms: seq<MethodBody>): CheckState
    decreases |ms|
  {
    if ms == [] then st else ScanMethods(env, Walk(env, EnterMethod(st, ms[0]), ms[0].src), ms[1..])
  }

  /** The assignment at the head of the `each_template` block. */
  function EnterTemplate(st: CheckState, t: Template): CheckState
  {
    st.(ctx := st.ctx.(currentTemplate := Some(t)))
  }

  /** The `each_template` loop over the templates `ts`. */
  function ScanTemplates(env: Env, st: CheckState, ts: seq<Template>): CheckState
    decreases |ts|
  {
    if ts == [] then st else ScanTemplates(env, Walk(env, EnterTemplate(st, ts[0]), ts[0].src), ts[1..])
  }

  /** The state after the methods loop and `@current_set = nil`. */
  function AfterMethods(env: Env, t: Tracker, st: CheckState): CheckState
  {
    var s := ScanMethods(env, st, t.methods);
    s.(ctx := s.ctx.(currentSet := None))
  }

  /** `check_for_backticks tracker`: both loops, each followed by its reset. */
  function Backticks(env: Env, t: Tracker, st: CheckState): CheckState
  {
    var s := ScanTemplates(env, AfterMethods(env, t, st), t.templates);
    s.(ctx := s.ctx.(currentTemplate := None))
  }

  // ---------------------------------------------------------------------
  // process_result and run_check
  // ---------------------------------------------------------------------

  /** `case call[2] when :system, :exec`. */
  predicate IsShellMethod(call: CallSexp)
  {
    Elem(call, 2) == Sym("system") || Elem(call, 2) == Sym("exec")
  }

  /** The part of the argument list the taint predicates are asked about. */
  function Tested(call: CallSexp): Sexp
  {
    if IsShellMethod(call) then Elem(Args(call), 1) else Args(call)
  }

  /** `failure` in `process_result`. */
  predicate Verdict(env: Env, call: CallSexp)
  {
    env.userInput(Tested(call)) || env.interp(Tested(call))
  }

  /** The warning `process_result` passes to `warn`. */
  function CallWarning(result: CallResult, confidence: Confidence): (w: Warning)
    ensures w.result == Some(result) && w.code == result.call && w.line == result.call.line
    ensures w.warningType == CommandInjection && w.message == PossibleCommandInjection
    ensures w.confidence == confidence && w.template == None && w.classAndMethod == None
  {
    Warning(Some(result), CommandInjection, PossibleCommandInjection, result.call.line, result.call,
      confidence, None, None)
  }

  /**
    The state after `args = process call[3]` and the evaluation of
    `failure`: `include_interp?`, which records its verdict in
    `@string_interp`, is evaluated only when `include_user_input?` is false.
  */
  function Evaluated(env: Env, st: CheckState, result: CallResult): CheckState
  {
    var walked := Walk(env, st, Args(result.call));
    var tested := Tested(result.call);
    if env.userInput(tested) then walked else walked.(stringInterp := env.interp(tested))
  }

  /** `process_result result`. */
  function ResultStep(env: Env, st: CheckState, result: CallResult): CheckState
  {
    var s := Evaluated(env, st, result);
    var key := env.keyOf(CallItem(result));
    if Verdict(env, result.call) && key !in s.reported then
      var confidence := if s.stringInterp then Medium else High;
      s.(reported := s.reported + {key}, warnings := s.warnings + [CallWarning(result, confidence)])
    else s
  }

  /** The `calls.each` loop of `run_check`. */
  function ResultsAll(env: Env, st: CheckState, rs: seq<CallResult>): CheckState
    decreases |rs|
  {
    if rs == [] then st else ResultsAll(env, ResultStep(env, st, rs[0]), rs[1..])
  }

  /** `run_check`: the backtick scan, then every call the tracker finds for the query, in order. */
  function Run(env: Env, t: Tracker, st: CheckState): CheckState
  {
    ResultsAll(env, Backticks(env, t, st), t.findCall(ExecQuery))
  }
}
