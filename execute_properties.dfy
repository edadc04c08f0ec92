/**
  What the command-injection check promises, proved about ExecuteModel
  for every answer of the taint predicates, the duplicate identity and the
  tracker.
*/
module ExecuteProperties {
  import opened Options
  import opened Sexps
  import opened Facts
  import opened Warnings
  import opened ExecuteModel

  /** `w` is the warning `process_dxstr` builds in context `ctx` for one of the literals `ds`. */
  predicate BacktickFrom(env: Env, ctx: Context, ds: seq<Sexp>, w: Warning)
  {
    w.code in ds && IsDxstr(w.code) && w == BacktickWarning(env, ctx, w.code)
  }

  /** The context the methods loop sets up for walking `m`. */
  function MethodContext(m: MethodBody): Context
  {
    Context(Some(m.setName), Some(m.methodName), None)
  }

  /**
    A context in which `t` is the current template. The template loop also
    leaves `@current_method` behind, but a warning built with a template
    set carries neither class nor method, so they are left out here.
  */
  function TemplateContext(t: Template): Context
  {
    Context(None, None, Some(t))
  }

  /**
    `w` is the warning `process_dxstr` builds for a literal of the body of
    one of the methods `ms`, with that method's class and name. A literal
    equal to one in an earlier method shares its location and is reported
    only once, so the method named is the first one walked that holds it.
  */
  predicate FromMethod(env: Env, ms: seq<MethodBody>, w: Warning)
  {
    IsDxstr(w.code)
    && exists m :: m in ms && w.code in DxstrNodes(m.src) && w == BacktickWarning(env, MethodContext(m), w.code)
  }

  /** `w` is the warning `process_dxstr` builds for a literal of one of the templates `ts`, with that template. */
  predicate FromTemplate(env: Env, ts: seq<Template>, w: Warning)
  {
    IsDxstr(w.code)
    && exists t :: t in ts && w.code in DxstrNodes(t.src) && w == BacktickWarning(env, TemplateContext(t), w.code)
  }

  /** Some warning added between `before` and `after` is for the location `key`. */
  ghost predicate NewlyWarned(env: Env, before: CheckState, after: CheckState, key: Key)
  {
    exists k | |before.warnings| <= k < |after.warnings| :: WarningKey(env, after.warnings[k]) == key
  }

  /** Every location registered between `before` and `after` was also warned about in between. */
  ghost predicate RegisteredAreWarned(env: Env, before: CheckState, after: CheckState)
  {
    forall key | key in after.reported && key !in before.reported :: NewlyWarned(env, before, after, key)
  }

  /** Two stretches in which every registered location was warned make one. */
  lemma RegisteredAreWarnedTrans(env: Env, a: CheckState, b: CheckState, c: CheckState)
    requires a.warnings <= b.warnings <= c.warnings
    requires a.reported <= b.reported
    requires RegisteredAreWarned(env, a, b) && RegisteredAreWarned(env, b, c)
    ensures RegisteredAreWarned(env, a, c)
  {
    forall key | key in c.reported && key !in a.reported
      ensures NewlyWarned(env, a, c, key)
    {
      if key in b.reported {
        var k :| |a.warnings| <= k < |b.warnings| && WarningKey(env, b.warnings[k]) == key;
        assert c.warnings[k] == b.warnings[k];
      } else {
        var k :| |b.warnings| <= k < |c.warnings| && WarningKey(env, c.warnings[k]) == key;
      }
    }
  }

  /** Registering the location of `w` while appending `w` keeps every registered location warned. */
  lemma RegisterIsWarned(env: Env, st: CheckState, w: Warning)
    ensures RegisteredAreWarned(env, st, st.(reported := st.reported + {WarningKey(env, w)}, warnings := st.warnings + [w]))
  {
    var r := st.(reported := st.reported + {WarningKey(env, w)}, warnings := st.warnings + [w]);
    assert WarningKey(env, r.warnings[|st.warnings|]) == WarningKey(env, w);
  }

  // ---------------------------------------------------------------------
  // The walk is process_dxstr over the literals in walk order
  // ---------------------------------------------------------------------

  lemma {:induction false} DxstrAllAppend(env: Env, st: CheckState, a: seq<Sexp>, b: seq<Sexp>)
    requires forall d <- a :: IsDxstr(d)
    requires forall d <- b :: IsDxstr(d)
    ensures DxstrAll(env, st, a + b) == DxstrAll(env, DxstrAll(env, st, a), b)
    decreases |a|
  {
    if a == [] {
      assert a + b == b;
    } else {
      assert (a + b)[1..] == a[1..] + b;
      DxstrAllAppend(env, Dxstr(env, st, a[0]), a[1..], b);
    }
  }

  lemma {:induction false} WalkIsDxstrAll(env: Env, st: CheckState, e: Sexp)
    ensures Walk(env, st, e) == DxstrAll(env, st, DxstrNodes(e))
    decreases e, 1
  {
    if IsDxstr(e) {
      assert DxstrAll(env, st, [e]) == DxstrAll(env, Dxstr(env, st, e), []);
    } else if e.Node? {
      WalkFromIsDxstrAll(env, st, e, 0);
    }
  }

  lemma {:induction false} WalkFromIsDxstrAll(env: Env, st: CheckState, e: Sexp, i: nat)
    requires e.Node? && i <= |e.elems|
    ensures WalkFrom(env, st, e, i) == DxstrAll(env, st, DxstrNodesFrom(e, i))
    decreases e, 0, |e.elems| - i
  {
    if i < |e.elems| {
      WalkIsDxstrAll(env, st, e.elems[i]);
      WalkFromIsDxstrAll(env, Walk(env, st, e.elems[i]), e, i + 1);
      DxstrAllAppend(env, st, DxstrNodes(e.elems[i]), DxstrNodesFrom(e, i + 1));
    }
  }

  lemma KeysOfCons(env: Env, ds: seq<Sexp>)
    requires ds != []
    ensures KeysOf(env, ds) == {env.keyOf(ExpItem(ds[0]))} + KeysOf(env, ds[1..])
  {
    assert forall d :: d in ds <==> d == ds[0] || d in ds[1..];
  }

  /**
    `process_dxstr` over a sequence of literals registers every one of
    them and warns about every one that was not reported before; it warns
    only with backtick warnings for them in the context it started in,
    appends and never rewrites, touches no context field, and does nothing
    at all when every literal is already reported.
  */
  lemma {:induction false} DxstrAllEffect(env: Env, st: CheckState, ds: seq<Sexp>)
    requires forall d <- ds :: IsDxstr(d)
    ensures DxstrAll(env, st, ds).ctx == st.ctx
    ensures DxstrAll(env, st, ds).stringInterp == st.stringInterp
    ensures DxstrAll(env, st, ds).reported == st.reported + KeysOf(env, ds)
    ensures st.warnings <= DxstrAll(env, st, ds).warnings
    ensures forall k | |st.warnings| <= k < |DxstrAll(env, st, ds).warnings| ::
              BacktickFrom(env, st.ctx, ds, DxstrAll(env, st, ds).warnings[k])
    ensures KeysOf(env, ds) <= st.reported ==> DxstrAll(env, st, ds) == st
    ensures RegisteredAreWarned(env, st, DxstrAll(env, st, ds))
    ensures forall d <- ds | env.keyOf(ExpItem(d)) !in st.reported ::
              NewlyWarned(env, st, DxstrAll(env, st, ds), env.keyOf(ExpItem(d)))
    decreases |ds|
  {
    if ds != [] {
      var st1 := Dxstr(env, st, ds[0]);
      var r := DxstrAll(env, st1, ds[1..]);
      assert DxstrAll(env, st, ds) == r;
      DxstrAllEffect(env, st1, ds[1..]);
      KeysOfCons(env, ds);
      if env.keyOf(ExpItem(ds[0])) !in st.reported {
        RegisterIsWarned(env, st, BacktickWarning(env, st.ctx, ds[0]));
      }
      RegisteredAreWarnedTrans(env, st, st1, r);
      forall d <- ds | env.keyOf(ExpItem(d)) !in st.reported
        ensures NewlyWarned(env, st, r, env.keyOf(ExpItem(d)))
      {
        assert env.keyOf(ExpItem(d)) in r.reported;
      }
      forall k | |st.warnings| <= k < |r.warnings|
        ensures BacktickFrom(env, st.ctx, ds, r.warnings[k])
      {
        if k < |st1.warnings| {
          assert r.warnings[k] == st1.warnings[k];
        } else {
          assert BacktickFrom(env, st1.ctx, ds[1..], r.warnings[k]);
        }
      }
    }
  }

  /**
    `process e` registers every backtick literal of `e` and warns about
    every one that was not reported before; it adds only backtick warnings
    for literals of `e` carrying the context it was called in, leaves the
    context and `@string_interp` alone, and changes nothing when every
    literal of `e` was already reported (in particular when `e` holds none).
  */
  lemma WalkEffect(env: Env, st: CheckState, e: Sexp)
    ensures Walk(env, st, e).ctx == st.ctx
    ensures Walk(env, st, e).stringInterp == st.stringInterp
    ensures Walk(env, st, e).reported == st.reported + KeysOf(env, DxstrNodes(e))
    ensures st.warnings <= Walk(env, st, e).warnings
    ensures forall k | |st.warnings| <= k < |Walk(env, st, e).warnings| ::
              BacktickFrom(env, st.ctx, DxstrNodes(e), Walk(env, st, e).warnings[k])
    ensures KeysOf(env, DxstrNodes(e)) <= st.reported ==> Walk(env, st, e) == st
    ensures RegisteredAreWarned(env, st, Walk(env, st, e))
    ensures forall d <- DxstrNodes(e) | env.keyOf(ExpItem(d)) !in st.reported ::
              NewlyWarned(env, st, Walk(env, st, e), env.keyOf(ExpItem(d)))
  {
    WalkIsDxstrAll(env, st, e);
    DxstrAllEffect(env, st, DxstrNodes(e));
  }

  /** Walking a tree a second time reports nothing new: each literal is reported once. */
  lemma WalkTwice(env: Env, st: CheckState, e: Sexp)
    ensures Walk(env, Walk(env, st, e), e) == Walk(env, st, e)
  {
    WalkEffect(env, st, e);
    WalkEffect(env, Walk(env, st, e), e);
  }

  // ---------------------------------------------------------------------
  // Deduplication: no two warnings share a location
  // ---------------------------------------------------------------------

  lemma RegisterKeepsKeysUnique(env: Env, st: CheckState, w: Warning)
    requires KeysUnique(env, st)
    requires WarningKey(env, w) !in st.reported
    ensures KeysUnique(env, st.(reported := st.reported + {WarningKey(env, w)}, warnings := st.warnings + [w]))
  {
  }

  lemma {:induction false} DxstrAllKeepsKeysUnique(env: Env, st: CheckState, ds: seq<Sexp>)
    requires forall d <- ds :: IsDxstr(d)
    requires KeysUnique(env, st)
    ensures KeysUnique(env, DxstrAll(env, st, ds))
    decreases |ds|
  {
    if ds != [] {
      if env.keyOf(ExpItem(ds[0])) !in st.reported {
        RegisterKeepsKeysUnique(env, st, BacktickWarning(env, st.ctx, ds[0]));
      }
      DxstrAllKeepsKeysUnique(env, Dxstr(env, st, ds[0]), ds[1..]);
    }
  }

  lemma WalkKeepsKeysUnique(env: Env, st: CheckState, e: Sexp)
    requires KeysUnique(env, st)
    ensures KeysUnique(env, Walk(env, st, e))
  {
    WalkIsDxstrAll(env, st, e);
    DxstrAllKeepsKeysUnique(env, st, DxstrNodes(e));
  }

  lemma {:induction false} ScanMethodsKeepsKeysUnique(env: Env, st: CheckState, ms: seq<MethodBody>)
    requires KeysUnique(env, st)
    ensures KeysUnique(env, ScanMethods(env, st, ms))
    decreases |ms|
  {
    if ms != [] {
      WalkKeepsKeysUnique(env, EnterMethod(st, ms[0]), ms[0].src);
      ScanMethodsKeepsKeysUnique(env, Walk(env, EnterMethod(st, ms[0]), ms[0].src), ms[1..]);
    }
  }

  lemma {:induction false} ScanTemplatesKeepsKeysUnique(env: Env, st: CheckState, ts: seq<Template>)
    requires KeysUnique(env, st)
    ensures KeysUnique(env, ScanTemplates(env, st, ts))
    decreases |ts|
  {
    if ts != [] {
      WalkKeepsKeysUnique(env, EnterTemplate(st, ts[0]), ts[0].src);
      ScanTemplatesKeepsKeysUnique(env, Walk(env, EnterTemplate(st, ts[0]), ts[0].src), ts[1..]);
    }
  }

  lemma ResultStepKeepsKeysUnique(env: Env, st: CheckState, result: CallResult)
    requires KeysUnique(env, st)
    ensures KeysUnique(env, ResultStep(env, st, result))
  {
    WalkKeepsKeysUnique(env, st, Args(result.call));
    var s := Evaluated(env, st, result);
    if Verdict(env, result.call) && env.keyOf(CallItem(result)) !in s.reported {
      RegisterKeepsKeysUnique(env, s, CallWarning(result, if s.stringInterp then Medium else High));
    }
  }

  lemma {:induction false} ResultsAllKeepsKeysUnique(env: Env, st: CheckState, rs: seq<CallResult>)
    requires KeysUnique(env, st)
    ensures KeysUnique(env, ResultsAll(env, st, rs))
    decreases |rs|
  {
    if rs != [] {
      ResultStepKeepsKeysUnique(env, st, rs[0]);
      ResultsAllKeepsKeysUnique(env, ResultStep(env, st, rs[0]), rs[1..]);
    }
  }

  /**
    A run keeps the deduplication invariant: starting from a state where
    no two warnings share a location (a fresh check, or any earlier run),
    it ends in one.
  */
  lemma RunKeepsKeysUnique(env: Env, t: Tracker, st: CheckState)
    requires KeysUnique(env, st)
    ensures KeysUnique(env, Run(env, t, st))
  {
    ScanMethodsKeepsKeysUnique(env, st, t.methods);
    ScanTemplatesKeepsKeysUnique(env, AfterMethods(env, t, st), t.templates);
    ResultsAllKeepsKeysUnique(env, Backticks(env, t, st), t.findCall(ExecQuery));
  }

  // ---------------------------------------------------------------------
  // check_for_backticks
  // ---------------------------------------------------------------------

  /**
    The methods loop: each method's literals are reported with that
    method's class and name, the context fields end on the last method,
    every literal of every method body is registered, and every one that
    was not reported before is warned about.
  */
  lemma {:induction false} ScanMethodsEffect(env: Env, st: CheckState, ms: seq<MethodBody>)
    requires st.ctx.currentTemplate == None
    ensures ScanMethods(env, st, ms).ctx.currentTemplate == None
    ensures ScanMethods(env, st, ms).ctx.currentSet == if ms == [] then st.ctx.currentSet else Some(ms[|ms| - 1].setName)
    ensures ScanMethods(env, st, ms).ctx.currentMethod == if ms == [] then st.ctx.currentMethod else Some(ms[|ms| - 1].methodName)
    ensures ScanMethods(env, st, ms).stringInterp == st.stringInterp
    ensures st.reported <= ScanMethods(env, st, ms).reported
    ensures forall m <- ms :: KeysOf(env, DxstrNodes(m.src)) <= ScanMethods(env, st, ms).reported
    ensures st.warnings <= ScanMethods(env, st, ms).warnings
    ensures forall k | |st.warnings| <= k < |ScanMethods(env, st, ms).warnings| ::
              FromMethod(env, ms, ScanMethods(env, st, ms).warnings[k])
    ensures RegisteredAreWarned(env, st, ScanMethods(env, st, ms))
    ensures forall m <- ms, d <- DxstrNodes(m.src) | env.keyOf(ExpItem(d)) !in st.reported ::
              NewlyWarned(env, st, ScanMethods(env, st, ms), env.keyOf(ExpItem(d)))
    decreases |ms|
  {
    if ms != [] {
      var s0 := EnterMethod(st, ms[0]);
      var s1 := Walk(env, s0, ms[0].src);
      var r := ScanMethods(env, s1, ms[1..]);
      WalkEffect(env, s0, ms[0].src);
      ScanMethodsEffect(env, s1, ms[1..]);
      RegisteredAreWarnedTrans(env, st, s1, r);
      forall k | |st.warnings| <= k < |r.warnings|
        ensures FromMethod(env, ms, r.warnings[k])
      {
        var w := r.warnings[k];
        if k < |s1.warnings| {
          assert w == s1.warnings[k];
          assert BacktickFrom(env, s0.ctx, DxstrNodes(ms[0].src), w);
          assert s0.ctx == MethodContext(ms[0]);
          assert ms[0] in ms;
        } else {
          assert FromMethod(env, ms[1..], w);
          var m :| m in ms[1..] && w.code in DxstrNodes(m.src) && w == BacktickWarning(env, MethodContext(m), w.code);
          assert m in ms;
        }
      }
      if ms[1..] != [] {
        assert ms[1..][|ms[1..]| - 1] == ms[|ms| - 1];
      }
      forall m <- ms
        ensures KeysOf(env, DxstrNodes(m.src)) <= r.reported
      {
        if m != ms[0] {
          assert m in ms[1..];
        }
      }
      forall m <- ms, d <- DxstrNodes(m.src) | env.keyOf(ExpItem(d)) !in st.reported
        ensures NewlyWarned(env, st, r, env.keyOf(ExpItem(d)))
      {
        assert env.keyOf(ExpItem(d)) in KeysOf(env, DxstrNodes(m.src));
      }
    }
  }

  /**
    The templates loop: each template's literals are reported with that
    template and no class or method; every literal of every template is
    registered, and every one that was not reported before is warned about.
  */
  lemma {:induction false} ScanTemplatesEffect(env: Env, st: CheckState, ts: seq<Template>)
    ensures ScanTemplates(env, st, ts).ctx.currentSet == st.ctx.currentSet
    ensures ScanTemplates(env, st, ts).ctx.currentMethod == st.ctx.currentMethod
    ensures ScanTemplates(env, st, ts).ctx.currentTemplate == if ts == [] then st.ctx.currentTemplate else Some(ts[|ts| - 1])
    ensures ScanTemplates(env, st, ts).stringInterp == st.stringInterp
    ensures st.reported <= ScanTemplates(env, st, ts).reported
    ensures forall t <- ts :: KeysOf(env, DxstrNodes(t.src)) <= ScanTemplates(env, st, ts).reported
    ensures st.warnings <= ScanTemplates(env, st, ts).warnings
    ensures forall k | |st.warnings| <= k < |ScanTemplates(env, st, ts).warnings| ::
              FromTemplate(env, ts, ScanTemplates(env, st, ts).warnings[k])
    ensures RegisteredAreWarned(env, st, ScanTemplates(env, st, ts))
    ensures forall t <- ts, d <- DxstrNodes(t.src) | env.keyOf(ExpItem(d)) !in st.reported ::
              NewlyWarned(env, st, ScanTemplates(env, st, ts), env.keyOf(ExpItem(d)))
    decreases |ts|
  {
    if ts != [] {
      var s0 := EnterTemplate(st, ts[0]);
      var s1 := Walk(env, s0, ts[0].src);
      var r := ScanTemplates(env, s1, ts[1..]);
      WalkEffect(env, s0, ts[0].src);
      ScanTemplatesEffect(env, s1, ts[1..]);
      RegisteredAreWarnedTrans(env, st, s1, r);
      forall k | |st.warnings| <= k < |r.warnings|
        ensures FromTemplate(env, ts, r.warnings[k])
      {
        var w := r.warnings[k];
        if k < |s1.warnings| {
          assert w == s1.warnings[k];
          assert BacktickFrom(env, s0.ctx, DxstrNodes(ts[0].src), w);
          assert BacktickWarning(env, s0.ctx, w.code) == BacktickWarning(env, TemplateContext(ts[0]), w.code);
          assert ts[0] in ts;
        } else {
          assert FromTemplate(env, ts[1..], w);
          var t :| t in ts[1..] && w.code in DxstrNodes(t.src) && w == BacktickWarning(env, TemplateContext(t), w.code);
          assert t in ts;
        }
      }
      if ts[1..] != [] {
        assert ts[1..][|ts[1..]| - 1] == ts[|ts| - 1];
      }
      forall t <- ts
        ensures KeysOf(env, DxstrNodes(t.src)) <= r.reported
      {
        if t != ts[0] {
          assert t in ts[1..];
        }
      }
      forall t <- ts, d <- DxstrNodes(t.src) | env.keyOf(ExpItem(d)) !in st.reported
        ensures NewlyWarned(env, st, r, env.keyOf(ExpItem(d)))
      {
        assert env.keyOf(ExpItem(d)) in KeysOf(env, DxstrNodes(t.src));
      }
    }
  }

  /**
    `check_for_backticks`: every backtick literal of every method body and
    every template is registered, and every one that was not reported
    before is warned about. Each warning it adds is a backtick warning that
    carries either the class and method it was found in or the template it
    was found in, never both; the method warnings all come before the
    template warnings. Afterwards `@current_set` and `@current_template`
    are nil while `@current_method` still names the last method visited.
  */
  lemma BackticksEffect(env: Env, t: Tracker, st: CheckState)
    requires st.ctx.currentTemplate == None
    ensures Backticks(env, t, st).ctx.currentSet == None
    ensures Backticks(env, t, st).ctx.currentTemplate == None
    ensures Backticks(env, t, st).ctx.currentMethod ==
              if t.methods == [] then st.ctx.currentMethod else Some(t.methods[|t.methods| - 1].methodName)
    ensures Backticks(env, t, st).stringInterp == st.stringInterp
    ensures st.reported <= Backticks(env, t, st).reported
    ensures forall m <- t.methods :: KeysOf(env, DxstrNodes(m.src)) <= Backticks(env, t, st).reported
    ensures forall tp <- t.templates :: KeysOf(env, DxstrNodes(tp.src)) <= Backticks(env, t, st).reported
    ensures st.warnings <= Backticks(env, t, st).warnings
    ensures forall k | |st.warnings| <= k < |Backticks(env, t, st).warnings| ::
              var w := Backticks(env, t, st).warnings[k];
              (FromMethod(env, t.methods, w) || FromTemplate(env, t.templates, w))
              && (w.template.Some? <==> w.classAndMethod.None?)
    ensures st.warnings <= AfterMethods(env, t, st).warnings <= Backticks(env, t, st).warnings
    ensures forall k | |st.warnings| <= k < |AfterMethods(env, t, st).warnings| ::
              FromMethod(env, t.methods, Backticks(env, t, st).warnings[k])
    ensures forall k | |AfterMethods(env, t, st).warnings| <= k < |Backticks(env, t, st).warnings| ::
              FromTemplate(env, t.templates, Backticks(env, t, st).warnings[k])
    ensures RegisteredAreWarned(env, st, Backticks(env, t, st))
    ensures forall m <- t.methods, d <- DxstrNodes(m.src) | env.keyOf(ExpItem(d)) !in st.reported ::
              NewlyWarned(env, st, Backticks(env, t, st), env.keyOf(ExpItem(d)))
    ensures forall tp <- t.templates, d <- DxstrNodes(tp.src) | env.keyOf(ExpItem(d)) !in st.reported ::
              NewlyWarned(env, st, Backticks(env, t, st), env.keyOf(ExpItem(d)))
  {
    ScanMethodsEffect(env, st, t.methods);
    var a := AfterMethods(env, t, st);
    ScanTemplatesEffect(env, a, t.templates);
    var r := Backticks(env, t, st);
    forall k | |st.warnings| <= k < |a.warnings|
      ensures FromMethod(env, t.methods, r.warnings[k])
    {
      assert r.warnings[k] == a.warnings[k];
    }
    RegisteredAreWarnedTrans(env, st, a, r);
    forall m <- t.methods, d <- DxstrNodes(m.src) | env.keyOf(ExpItem(d)) !in st.reported
      ensures NewlyWarned(env, st, r, env.keyOf(ExpItem(d)))
    {
      assert env.keyOf(ExpItem(d)) in KeysOf(env, DxstrNodes(m.src));
    }
    forall tp <- t.templates, d <- DxstrNodes(tp.src) | env.keyOf(ExpItem(d)) !in st.reported
      ensures NewlyWarned(env, st, r, env.keyOf(ExpItem(d)))
    {
      assert env.keyOf(ExpItem(d)) in KeysOf(env, DxstrNodes(tp.src));
    }
  }

  // ---------------------------------------------------------------------
  // process_result
  // ---------------------------------------------------------------------

  /**
    For `system` and `exec`, two calls to the same method whose first
    arguments agree get the same `failure` verdict, whatever else their
    argument lists hold and however many arguments they have.
  */
  lemma ShellVerdictDependsOnlyOnFirstArg(env: Env, c1: CallSexp, c2: CallSexp)
    requires IsShellMethod(c1) && Elem(c2, 2) == Elem(c1, 2)
    requires Elem(Args(c2), 1) == Elem(Args(c1), 1)
    ensures IsShellMethod(c2)
    ensures Verdict(env, c1) == Verdict(env, c2)
  {
  }

  /** `call` with its `i`-th argument-list element replaced by `x`. */
  function WithArg(call: CallSexp, i: nat, x: Sexp): (c: CallSexp)
    requires 1 <= i < |Args(call).elems|
    ensures Elem(c, 2) == Elem(call, 2)
    ensures Elem(Args(c), i) == x
    ensures forall j :: j != i ==> Elem(Args(c), j) == Elem(Args(call), j)
  {
    var a := Args(call);
    call.(elems := call.elems[3 := a.(elems := a.elems[i := x])])
  }

  /** For `system` and `exec`, changing any argument after the first leaves the verdict unchanged. */
  lemma ShellVerdictIgnoresLaterArgs(env: Env, call: CallSexp, i: nat, x: Sexp)
    requires IsShellMethod(call)
    requires 2 <= i < |Args(call).elems|
    ensures IsShellMethod(WithArg(call, i, x))
    ensures Verdict(env, WithArg(call, i, x)) == Verdict(env, call)
  {
    assert Elem(Args(WithArg(call, i, x)), 1) == Elem(Args(call), 1);
  }

  /**
    `process_result`: after walking the argument list, a warning for the
    call is added, and its location registered, exactly when `failure`
    holds and the result is not a duplicate; otherwise the registered
    locations and the warnings are those the walk left. The context fields
    are untouched, and `@string_interp` changes only when
    `include_interp?` is evaluated, that is, when no user input was found.
  */
  lemma ResultStepEffect(env: Env, st: CheckState, result: CallResult)
    ensures ResultStep(env, st, result).ctx == st.ctx
    ensures ResultStep(env, st, result).stringInterp ==
              if env.userInput(Tested(result.call)) then st.stringInterp else env.interp(Tested(result.call))
    ensures var walked := Walk(env, st, Args(result.call));
            var key := env.keyOf(CallItem(result));
            var p := ResultStep(env, st, result);
            if Verdict(env, result.call) && key !in walked.reported then
              && p.reported == walked.reported + {key}
              && p.warnings == walked.warnings + [CallWarning(result, if p.stringInterp then Medium else High)]
            else
              p.reported == walked.reported && p.warnings == walked.warnings
  {
    WalkEffect(env, st, Args(result.call));
  }

  /**
    A call whose verdict is not `failure`, and whose argument list holds
    no backtick literal that was not reported already, changes neither the
    registered locations nor the warnings.
  */
  lemma NonFailingResultChangesNothing(env: Env, st: CheckState, result: CallResult)
    requires !Verdict(env, result.call)
    requires KeysOf(env, DxstrNodes(Args(result.call))) <= st.reported
    ensures ResultStep(env, st, result).reported == st.reported
    ensures ResultStep(env, st, result).warnings == st.warnings
  {
    WalkEffect(env, st, Args(result.call));
  }

  /** Processing the same result again adds no warning and registers nothing new. */
  lemma ResultStepTwice(env: Env, st: CheckState, result: CallResult)
    ensures ResultStep(env, ResultStep(env, st, result), result).warnings == ResultStep(env, st, result).warnings
    ensures ResultStep(env, ResultStep(env, st, result), result).reported == ResultStep(env, st, result).reported
  {
    var args := Args(result.call);
    var p := ResultStep(env, st, result);
    WalkEffect(env, st, args);
    ResultStepEffect(env, st, result);
    assert KeysOf(env, DxstrNodes(args)) <= p.reported;
    WalkEffect(env, p, args);
    ResultStepEffect(env, p, result);
  }

  /**
    The confidence of a call warning. With no user input found, `failure`
    came from interpolation and the warning is medium. With user input
    found, `include_interp?` is skipped and the confidence follows whatever
    `@string_interp` held before the call: medium if an earlier call left it
    set, high otherwise.
  */
  lemma CallConfidence(env: Env, st: CheckState, result: CallResult)
    requires Verdict(env, result.call)
    requires env.keyOf(CallItem(result)) !in Walk(env, st, Args(result.call)).reported
    ensures var ws := ResultStep(env, st, result).warnings;
            && |ws| > 0
            && ws[|ws| - 1].result == Some(result)
            && (!env.userInput(Tested(result.call)) ==> ws[|ws| - 1].confidence == Medium)
            && (env.userInput(Tested(result.call)) ==>
                  ws[|ws| - 1].confidence == (if st.stringInterp then Medium else High))
  {
    ResultStepEffect(env, st, result);
  }

  /**
    `process_result` only adds: a failing result ends up registered, and
    every location it registers (the call's own, or a backtick literal's
    in its arguments) is warned about in the same step. So a failing
    result not reported before gets a warning.
  */
  lemma ResultStepRegisters(env: Env, st: CheckState, result: CallResult)
    ensures st.reported <= ResultStep(env, st, result).reported
    ensures st.warnings <= ResultStep(env, st, result).warnings
    ensures Verdict(env, result.call) ==> env.keyOf(CallItem(result)) in ResultStep(env, st, result).reported
    ensures RegisteredAreWarned(env, st, ResultStep(env, st, result))
    ensures Verdict(env, result.call) && env.keyOf(CallItem(result)) !in st.reported ==>
              NewlyWarned(env, st, ResultStep(env, st, result), env.keyOf(CallItem(result)))
  {
    var s := Evaluated(env, st, result);
    var p := ResultStep(env, st, result);
    var key := env.keyOf(CallItem(result));
    WalkEffect(env, st, Args(result.call));
    assert RegisteredAreWarned(env, st, s);
    if Verdict(env, result.call) && key !in s.reported {
      var w := CallWarning(result, if s.stringInterp then Medium else High);
      RegisterIsWarned(env, s, w);
      RegisteredAreWarnedTrans(env, st, s, p);
    }
  }

  // ---------------------------------------------------------------------
  // run_check
  // ---------------------------------------------------------------------

  /**
    The results loop: the context is untouched, it only appends, every call
    warning it adds is for a failing result of `rs`, and, the other way
    round, every failing result of `rs` ends up registered and is warned
    about unless its location was reported before the loop.
  */
  lemma {:induction false} ResultsAllEffect(env: Env, st: CheckState, rs: seq<CallResult>)
    ensures ResultsAll(env, st, rs).ctx == st.ctx
    ensures st.reported <= ResultsAll(env, st, rs).reported
    ensures st.warnings <= ResultsAll(env, st, rs).warnings
    ensures forall k | |st.warnings| <= k < |ResultsAll(env, st, rs).warnings| ::
              var w := ResultsAll(env, st, rs).warnings[k];
              w.result.Some? ==> w.result.value in rs && Verdict(env, w.result.value.call)
    ensures forall res <- rs | Verdict(env, res.call) :: env.keyOf(CallItem(res)) in ResultsAll(env, st, rs).reported
    ensures RegisteredAreWarned(env, st, ResultsAll(env, st, rs))
    ensures forall res <- rs | Verdict(env, res.call) && env.keyOf(CallItem(res)) !in st.reported ::
              NewlyWarned(env, st, ResultsAll(env, st, rs), env.keyOf(CallItem(res)))
    decreases |rs|
  {
    if rs != [] {
      var s1 := ResultStep(env, st, rs[0]);
      var r := ResultsAll(env, s1, rs[1..]);
      WalkEffect(env, st, Args(rs[0].call));
      ResultStepEffect(env, st, rs[0]);
      ResultStepRegisters(env, st, rs[0]);
      ResultsAllEffect(env, s1, rs[1..]);
      RegisteredAreWarnedTrans(env, st, s1, r);
      forall res <- rs | Verdict(env, res.call)
        ensures env.keyOf(CallItem(res)) in r.reported
      {
        if res != rs[0] {
          assert res in rs[1..];
        }
      }
      forall k | |st.warnings| <= k < |r.warnings| && r.warnings[k].result.Some?
        ensures r.warnings[k].result.value in rs && Verdict(env, r.warnings[k].result.value.call)
      {
        if k >= |s1.warnings| {
          assert r.warnings[k].result.value in rs[1..];
        } else {
          assert r.warnings[k] == s1.warnings[k];
        }
      }
    }
  }

  /** The results loop handles `a + b` as `a` and then `b`: results are processed in the order given. */
  lemma {:induction false} ResultsAllAppend(env: Env, st: CheckState, a: seq<CallResult>, b: seq<CallResult>)
    ensures ResultsAll(env, st, a + b) == ResultsAll(env, ResultsAll(env, st, a), b)
    decreases |a|
  {
    if a == [] {
      assert a + b == b;
    } else {
      assert (a + b)[1..] == a[1..] + b;
      ResultsAllAppend(env, ResultStep(env, st, a[0]), a[1..], b);
    }
  }

  /**
    `run_check`: the backtick scan comes first (its warnings precede every
    other), every call warning is for a result the tracker returned for the
    query of `run_check` and whose verdict is `failure`, every such result
    not reported before the run is warned about, and the run ends
    with `@current_set` and `@current_template` nil. When the tracker
    answers the query soundly, every reported call has one of the receivers
    `IO`, `Open3`, `Kernel` or none, and one of the methods `exec`, `popen`,
    `popen3`, `syscall` or `system`.
  */
  lemma RunEffect(env: Env, t: Tracker, st: CheckState)
    requires st.ctx.currentTemplate == None
    ensures Backticks(env, t, st).warnings <= Run(env, t, st).warnings
    ensures forall k | |st.warnings| <= k < |Backticks(env, t, st).warnings| :: Run(env, t, st).warnings[k].result.None?
    ensures Run(env, t, st).ctx.currentSet == None && Run(env, t, st).ctx.currentTemplate == None
    ensures forall k | |st.warnings| <= k < |Run(env, t, st).warnings| ::
              var w := Run(env, t, st).warnings[k];
              w.result.Some? ==> w.result.value in t.findCall(ExecQuery) && Verdict(env, w.result.value.call)
    ensures AnswersSoundly(t, ExecQuery) ==>
              forall k | |st.warnings| <= k < |Run(env, t, st).warnings| ::
                var w := Run(env, t, st).warnings[k];
                w.result.Some? ==> w.result.value.target in ExecTargets && w.result.value.methodName in ExecMethods
    ensures forall res <- t.findCall(ExecQuery) | Verdict(env, res.call) :: env.keyOf(CallItem(res)) in Run(env, t, st).reported
    ensures RegisteredAreWarned(env, st, Run(env, t, st))
    ensures forall res <- t.findCall(ExecQuery) | Verdict(env, res.call) && env.keyOf(CallItem(res)) !in st.reported ::
              NewlyWarned(env, st, Run(env, t, st), env.keyOf(CallItem(res)))
  {
    var b := Backticks(env, t, st);
    var r := Run(env, t, st);
    BackticksEffect(env, t, st);
    ResultsAllEffect(env, b, t.findCall(ExecQuery));
    RegisteredAreWarnedTrans(env, st, b, r);
    forall k | |st.warnings| <= k < |b.warnings|
      ensures r.warnings[k].result.None?
    {
      assert r.warnings[k] == b.warnings[k];
    }
  }

  // ---------------------------------------------------------------------
  // Scenarios
  // ---------------------------------------------------------------------

  /** `system("rf -rf #{params[:file]}")` with user input in the command: one high-confidence warning at the call's line. */
  lemma SystemWithUserInput()
    ensures var cmd := Node(9, [Sym("dstr"), Str("rf -rf "), Node(9, [Sym("params")])]);
            var call: CallSexp := Node(9, [Sym("call"), Nil, Sym("system"), Node(9, [Sym("arglist"), cmd])]);
            var result := CallResult(call, None, "system");
            var env := Env((s: Sexp) => s == cmd, (s: Sexp) => s.Node? && s.elems != [] && s.elems[0] == Sym("dstr"), (x: Reportable) => 0);
            ResultStep(env, Initial, result).warnings == [CallWarning(result, High)]
  {
    var cmd := Node(9, [Sym("dstr"), Str("rf -rf "), Node(9, [Sym("params")])]);
    var args := Node(9, [Sym("arglist"), cmd]);
    var call: CallSexp := Node(9, [Sym("call"), Nil, Sym("system"), args]);
    var env := Env((s: Sexp) => s == cmd, (s: Sexp) => s.Node? && s.elems != [] && s.elems[0] == Sym("dstr"), (x: Reportable) => 0);
    assert DxstrNodes(cmd) == [] by {
      assert DxstrNodesFrom(cmd, 3) == [];
      assert DxstrNodes(cmd.elems[2]) == DxstrNodesFrom(cmd.elems[2], 0);
    }
    assert DxstrNodes(args) == [] by {
      assert DxstrNodesFrom(args, 2) == [];
      assert DxstrNodesFrom(args, 1) == DxstrNodes(cmd) + DxstrNodesFrom(args, 2);
      assert DxstrNodesFrom(args, 0) == DxstrNodes(Sym("arglist")) + DxstrNodesFrom(args, 1);
    }
    WalkEffect(env, Initial, args);
  }

  /**
    `` `unlink #{something}` `` in a template, with no user input: one
    medium-confidence warning carrying the template and no class or method.
  */
  lemma TemplateBacktickWithoutUserInput()
    ensures var lit := Node(4, [Sym("dxstr"), Str("unlink "), Node(4, [Sym("evstr"), Node(4, [Sym("lvar"), Sym("something")])])]);
            var tpl := Template("index", Node(1, [Sym("block"), lit]));
            var t := Tracker([], [tpl], (q: CallQuery) => []);
            var env := Env((s: Sexp) => false, (s: Sexp) => true, (x: Reportable) => 0);
            var ws := Run(env, t, Initial).warnings;
            |ws| == 1 && ws[0].confidence == Medium && ws[0].template == Some(tpl)
            && ws[0].classAndMethod == None && ws[0].code == lit && ws[0].line == 4
  {
    var lit := Node(4, [Sym("dxstr"), Str("unlink "), Node(4, [Sym("evstr"), Node(4, [Sym("lvar"), Sym("something")])])]);
    var src := Node(1, [Sym("block"), lit]);
    var tpl := Template("index", src);
    var t := Tracker([], [tpl], (q: CallQuery) => []);
    var env := Env((s: Sexp) => false, (s: Sexp) => true, (x: Reportable) => 0);
    assert DxstrNodes(src) == [lit] by {
      assert DxstrNodesFrom(src, 2) == [];
      assert DxstrNodesFrom(src, 1) == [lit];
    }
    var s0 := EnterTemplate(AfterMethods(env, t, Initial), tpl);
    WalkEffect(env, s0, src);
    assert ScanTemplates(env, AfterMethods(env, t, Initial), [tpl]) == Walk(env, s0, src);
  }

  /**
    The `@string_interp` flag outlives a call: after a call whose only
    fault is interpolation, a call with user input in the tested argument
    is reported at medium confidence, not high.
  */
  lemma StaleFlagCarriesOver(env: Env, st: CheckState, first: CallResult, second: CallResult)
    requires !env.userInput(Tested(first.call)) && env.interp(Tested(first.call))
    requires env.userInput(Tested(second.call))
    requires env.keyOf(CallItem(second)) !in Walk(env, ResultStep(env, st, first), Args(second.call)).reported
    ensures var ws := ResultStep(env, ResultStep(env, st, first), second).warnings;
            |ws| > 0 && ws[|ws| - 1] == CallWarning(second, Medium)
  {
    var s1 := ResultStep(env, st, first);
    ResultStepEffect(env, st, first);
    ResultStepEffect(env, s1, second);
  }
}
