/**
  What a check is given by the rest of the scanner: the tracker's answers
  (call sites, method bodies, templates) and the verdicts of the taint
  predicates and of the duplicate-report identity, which live in the
  base check and are not part of this model. They are kept uninterpreted:
  every property proved below holds for every choice of them.
*/
module Facts {
  import opened Options
  import opened Sexps

  /** A Ruby symbol or class name, by its text. */
  type Name = string

  /** One hit of `tracker.find_call`: the call node and the receiver and method it matched. */
  datatype CallResult = CallResult(call: CallSexp, target: Option<Name>, methodName: Name)

  /** One method body as `tracker.each_method` yields it: the body, its class (the "set") and its name. */
  datatype MethodBody = MethodBody(src: Sexp, setName: Name, methodName: Name)

  /** One template as `tracker.each_template` yields it; `src` is `template[:src]`. */
  datatype Template = Template(name: Name, src: Sexp)

  /** The `:targets` and `:methods` arguments of `find_call`; a `None` target is a call with no receiver. */
  datatype CallQuery = CallQuery(targets: seq<Option<Name>>, methods: seq<Name>)

  datatype Tracker = Tracker(
    methods: seq<MethodBody>,
    templates: seq<Template>,
    findCall: CallQuery -> seq<CallResult>)

  /** What `duplicate?` and `add_result` are given: a call-site result or a bare expression. */
  datatype Reportable = CallItem(result: CallResult) | ExpItem(exp: Sexp)

  /** The identity under which the base check remembers a reported location. */
  type Key = nat

  /**
    The base check's collaborators: `include_user_input?`,
    the verdict of `include_interp?`, and the identity that `duplicate?`
    and `add_result` compare.
  */
  datatype Env = Env(
    userInput: Sexp -> bool,
    interp: Sexp -> bool,
    keyOf: Reportable -> Key)

  /** Whether the tracker's answer to `q` holds only calls that match `q`. */
  predicate AnswersSoundly(t: Tracker, q: CallQuery)
  {
    forall r <- t.findCall(q) :: r.target in q.targets && r.methodName in q.methods
  }
}

/** The warnings a check hands to the report, and their confidence tiers. */
module Warnings {
  import opened Options
  import opened Sexps
  import opened Facts

  /** `CONFIDENCE[:high]`, `[:med]` and `[:low]`. */
  datatype Confidence = High | Medium | Low

  /** The `:class` and `:method` entries of a warning hash. */
  datatype ClassMethod = ClassMethod(cls: Option<Name>, methodName: Option<Name>)

  /**
    A warning hash. `result` is the `:result` entry of a call-site warning;
    `template` and `classAndMethod` are the context entries a backtick
    warning carries.
  */
  datatype Warning = Warning(
    result: Option<CallResult>,
    warningType: string,
    message: string,
    line: int,
    code: Sexp,
    confidence: Confidence,
    template: Option<Template>,
    classAndMethod: Option<ClassMethod>)

  const CommandInjection := "Command Injection"
  const PossibleCommandInjection := "Possible command injection"
}
