/**
  `Brakeman::CheckExecute` as an object: its context fields, the base
  check's list of reported locations and its warnings, and the four
  operations of the check. Each method is proved to leave exactly the state
  the matching function of ExecuteModel describes.
*/
module CheckExecute {
  import opened Options
  import opened Sexps
  import opened Facts
  import opened Warnings
  import opened ExecuteModel

  class ExecuteCheck {
    const env: Env
    const tracker: Tracker

    var reported: set<Key>
    var warnings: seq<Warning>
    var currentSet: Option<Name>
    var currentMethod: Option<Name>
    var currentTemplate: Option<Template>
    var stringInterp: bool

    /** The check's fields as one value. */
    function State(): CheckState
      reads this
    {
      CheckState(reported, warnings, Context(currentSet, currentMethod, currentTemplate), stringInterp)
    }

    constructor (env: Env, tracker: Tracker)
      ensures this.env == env && this.tracker == tracker
      ensures State() == Initial
    {
      this.env := env;
      this.tracker := tracker;
      reported := {};
      warnings := [];
      currentSet := None;
      currentMethod := None;
      currentTemplate := None;
      stringInterp := false;
    }

    /** `duplicate? item`. */
    predicate Duplicate(item: Reportable)
      reads this
    {
      env.keyOf(item) in reported
    }

    /** `add_result item`. */
    method AddResult(item: Reportable)
      modifies this
      ensures State() == old(State()).(reported := old(reported) + {env.keyOf(item)})
    {
      reported := reported + {env.keyOf(item)};
    }

    /** `warn w`. */
    method Warn(w: Warning)
      modifies this
      ensures State() == old(State()).(warnings := old(warnings) + [w])
    {
      warnings := warnings + [w];
    }

    /** `include_interp? e`: its verdict, which it also leaves in `@string_interp`. */
    method IncludeInterp(e: Sexp) returns (found: bool)
      modifies this
      ensures found == env.interp(e)
      ensures State() == old(State()).(stringInterp := found)
    {
      found := env.interp(e);
      stringInterp := found;
    }

    /** `run_check`. */
    method RunCheck()
      modifies this
      ensures State() == Run(env, tracker, old(State()))
    {
      CheckForBackticks(tracker);
      var calls := tracker.findCall(ExecQuery);
      for i := 0 to |calls|
        invariant Run(env, tracker, old(State())) == ResultsAll(env, State(), calls[i..])
      {
        assert calls[i..][1..] == calls[i + 1..];
        ProcessResult(calls[i]);
      }
    }

    /** `process_result result`. */
    method ProcessResult(result: CallResult)
      modifies this
      ensures State() == ResultStep(env, old(State()), result)
    {
      var call := result.call;
      var args := Process(Elem(call, 3));
      var tested := if IsShellMethod(call) then Elem(args, 1) else args;
      var failure := env.userInput(tested);
      if !failure {
        failure := IncludeInterp(tested);
      }
      if failure && !Duplicate(CallItem(result)) {
        AddResult(CallItem(result));
        var confidence := if stringInterp then Medium else High;
        Warn(CallWarning(result, confidence));
      }
    }

    /** `check_for_backticks t`. */
    method CheckForBackticks(t: Tracker)
      modifies this
      ensures State() == Backticks(env, t, old(State()))
    {
      for i := 0 to |t.methods|
        invariant ScanMethods(env, old(State()), t.methods) == ScanMethods(env, State(), t.methods[i..])
      {
        var m := t.methods[i];
        currentSet := Some(m.setName);
        currentMethod := Some(m.methodName);
        assert t.methods[i..][1..] == t.methods[i + 1..];
        var _ := Process(m.src);
      }
      currentSet := None;
      ghost var afterMethods := State();
      assert afterMethods == AfterMethods(env, t, old(State()));
      for j := 0 to |t.templates|
        invariant ScanTemplates(env, afterMethods, t.templates) == ScanTemplates(env, State(), t.templates[j..])
      {
        var tpl := t.templates[j];
        currentTemplate := Some(tpl);
        assert t.templates[j..][1..] == t.templates[j + 1..];
        var _ := Process(tpl.src);
      }
      currentTemplate := None;
    }

    /** `process e`, as far as this check is concerned: the walk that dispatches backtick literals. */
    method Process(e: Sexp) returns (processed: Sexp)
      modifies this
      ensures processed == e
      ensures State() == Walk(env, old(State()), e)
      decreases e
    {
      if IsDxstr(e) {
        processed := ProcessDxstr(e);
      } else {
        if e.Node? {
          for i := 0 to |e.elems|
            invariant Walk(env, old(State()), e) == WalkFrom(env, State(), e, i)
          {
            var _ := Process(e.elems[i]);
          }
        }
        processed := e;
      }
    }

    /** `process_dxstr exp`. */
    method ProcessDxstr(exp: Sexp) returns (processed: Sexp)
      requires IsDxstr(exp)
      modifies this
      ensures processed == exp
      ensures State() == Dxstr(env, old(State()), exp)
    {
      if Duplicate(ExpItem(exp)) {
        return exp;
      }
      AddResult(ExpItem(exp));
      var confidence := if env.userInput(exp) then High else Medium;
      var context := if currentTemplate.Some? then None else Some(ClassMethod(currentSet, currentMethod));
      var warning := Warning(None, CommandInjection, PossibleCommandInjection, exp.line, exp, confidence,
        currentTemplate, context);
      Warn(warning);
      processed := exp;
    }
  }
}
