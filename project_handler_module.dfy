/** The newer, asynchronous `projectHandler(handler, options)`: it resolves
    its options once, and the returned wrapper runs, per request, a fixed
    sequence over the request's and the response's scratch records:
    availability gate, validate, setup, locals, handler, teardown, final
    decision, outer catch. */
module ProjectHandlerModule {
  import opened Values
  import opened Env
  import opened JsonApiError
  import opened Errors
  import opened SummarizeRequest
  import opened Http
  import opened ResponseHooks
  import opened Steps

  /** The options object; an absent option is `None` and takes its default. */
  datatype Options = Options(
    locals: seq<(string, Local)>,  // in `Object.keys` order
    name: Option<string>,
    setup: seq<Entry>,
    teardown: seq<Entry>,
    unavailable: Option<bool>,
    validate: seq<Entry>,
    version: Option<string>)

  const NoOptions := Options([], None, [], [], None, [], None)

  /** What the returned wrapper closes over. */
  datatype Wrapped = Wrapped(
    handler: Handler,
    locals: seq<(string, Local)>,
    name: Option<string>,
    setup: seq<Entry>,
    teardown: seq<Entry>,
    unavailable: bool,
    validate: seq<Entry>,
    version: Option<string>)

  /** The factory. Defaults are read from the environment when it runs; an
      explicit truthy `name` wins, otherwise a non-empty `handler.name` is
      used, otherwise the name stays as given. */
  function ProjectHandler(handler: Handler, opts: Options, env: Env): (w: Wrapped)
    ensures Truthy(opts.name) ==> w.name == opts.name
    ensures Truthy(w.name) <==> Truthy(opts.name) || handler.name != ""
    ensures Truthy(w.name) ==> w.name == opts.name || w.name == Some(handler.name)
    ensures w.unavailable == (if opts.unavailable.Some? then opts.unavailable.value else env.projectUnavailable)
    ensures w.version == (if opts.version.Some? then opts.version else env.projectVersion)
  {
    var name := if !Truthy(opts.name) && handler.name != "" then Some(handler.name) else opts.name;
    Wrapped(handler, opts.locals, name,
            opts.setup, opts.teardown, opts.unavailable.GetOr(env.projectUnavailable), opts.validate,
            if opts.version.Some? then opts.version else env.projectVersion)
  }

  /** Wrapping again with the resolved name as the explicit name resolves to
      the same name. */
  lemma ResolvedNameIsStable(handler: Handler, opts: Options, env: Env)
    ensures var w := ProjectHandler(handler, opts, env);
      ProjectHandler(handler, opts.(name := w.name), env).name == w.name
  {
  }

  // ----- The run, as a specification -----

  /** The calls of every function entry, in array order, skipping the rest. */
  function FnCalls(entries: seq<Entry>, phase: Phase): (calls: seq<Call>)
    ensures |calls| <= |entries|
    ensures forall i :: 0 <= i < |calls| ==> calls[i].phase == phase && calls[i].extra == []
  {
    if entries == [] then []
    else (if entries[0].Fn? then [Call(phase, entries[0].action, [])] else []) + FnCalls(entries[1..], phase)
  }

  /** Validate or setup: entries in order, non-functions skipped, the first
      error ends the array (and the run). */
  function RunAborting(entries: seq<Entry>, phase: Phase): (r: (seq<Call>, Option<Thrown>))
  {
    if entries == [] then ([], None)
    else match entries[0]
      case NotFunction => RunAborting(entries[1..], phase)
      case Fn(a) =>
        if a.Awaited().Some? then ([Call(phase, a, [])], a.Awaited())
        else
          var rest := RunAborting(entries[1..], phase);
          ([Call(phase, a, [])] + rest.0, rest.1)
  }

  /** The value `req.locals[key]` receives. */
  function Stored(l: Local): Value
  {
    match l
    case Producer(_, result) => result
    case Literal(value) => value
  }

  /** Whether a `locals` value is a function whose awaited call fails. */
  predicate Aborts(l: Local)
  {
    l.Producer? && l.action.Awaited().Some?
  }

  /** The call a `locals` value makes: one for a function, none otherwise. */
  function CalledBy(l: Local): seq<Call>
  {
    if l.Producer? then [Call(Locals, l.action, [])] else []
  }

  /** Locals in key order: a function is awaited and its result stored, any
      other value stored as it is; an error ends the run before its key is
      written. */
  function RunLocals(locals: seq<(string, Local)>): (r: (seq<Call>, seq<(string, Value)>, Option<Thrown>))
  {
    if locals == [] then ([], [], None)
    else
      var l := locals[0].1;
      if Aborts(l) then (CalledBy(l), [], l.action.Awaited())
      else
        var rest := RunLocals(locals[1..]);
        (CalledBy(l) + rest.0, [(locals[0].0, Stored(l))] + rest.1, rest.2)
  }

  /** Teardown: every function entry runs; each error is classified and
      kept, in order. */
  function RunTeardown(entries: seq<Entry>): (r: (seq<Call>, seq<ProjectError>))
    ensures |r.1| <= |r.0|
  {
    if entries == [] then ([], [])
    else
      var rest := RunTeardown(entries[1..]);
      match entries[0]
      case NotFunction => rest
      case Fn(a) =>
        ([Call(Teardown, a, [])] + rest.0, CaughtErrors(a) + rest.1)
  }

  /** What a caught call contributes to the runtime errors: nothing when it
      succeeds, its classified error when it fails. Used for the handler's
      catch and for each teardown catch. */
  function CaughtErrors(a: Action): seq<ProjectError>
  {
    if a.Awaited().Some? then [Classify(a.Awaited().value)] else []
  }

  /** What one invocation does: the calls it makes, the locals it writes and
      the error that reaches the outer catch. */
  datatype Plan = Plan(calls: seq<Call>, writes: seq<(string, Value)>, final: Option<Thrown>)

  /** Whether the run gets past validate, setup and locals. */
  predicate ReachesHandler(w: Wrapped)
  {
    !w.unavailable && RunAborting(w.validate, Validate).1.None? && RunAborting(w.setup, Setup).1.None?
    && RunLocals(w.locals).2.None?
  }

  /** The run. Every catch classifies with `Classify`, which reads a
      `null` or `undefined` error as unhandled; `ModulePlanAsWritten` gives
      the catch blocks as written. */
  function ModulePlan(w: Wrapped, params: seq<Value>): Plan
  {
    if w.unavailable then Plan([], [], Some(Project(Unavailable)))
    else
      var (vc, ve) := RunAborting(w.validate, Validate);
      if ve.Some? then Plan(vc, [], ve)
      else
        var (sc, se) := RunAborting(w.setup, Setup);
        if se.Some? then Plan(vc + sc, [], se)
        else
          var (lc, lw, le) := RunLocals(w.locals);
          if le.Some? then Plan(vc + sc + lc, lw, le)
          else
            var (tc, terrs) := RunTeardown(w.teardown);
            var decided := Decide(CaughtErrors(w.handler.action) + terrs);
            Plan(vc + sc + lc + [Call(Handle, w.handler.action, params)] + tc, lw,
                 if decided.Some? then Some(Project(decided.value)) else None)
  }

  /** The bodies the outer catch sends. */
  function ReplySends(final: Option<Thrown>): seq<Value>
  {
    if final.Some? then [ErrorReply(final.value).body] else []
  }

  /** The status code after the run. */
  function FinalStatus(code: int, p: Plan): int
  {
    if p.final.Some? then ErrorReply(p.final.value).status else LastStatus(code, p.calls)
  }

  /** `req.locals` after the writes, in order. */
  function ApplyWrites(m: map<string, Value>, writes: seq<(string, Value)>): map<string, Value>
  {
    if writes == [] then m
    else ApplyWrites(m, writes[..|writes| - 1])[writes[|writes| - 1].0 := writes[|writes| - 1].1]
  }

  // ----- Properties of the run -----

  /** When no function entry fails, every function entry is called, in
      order, and non-functions are skipped. */
  lemma {:induction false} AbortingAllPass(entries: seq<Entry>, phase: Phase)
    requires forall i :: 0 <= i < |entries| && entries[i].Fn? ==> entries[i].action.Awaited().None?
    ensures RunAborting(entries, phase) == (FnCalls(entries, phase), None)
  {
    if entries != [] {
      AbortingAllPass(entries[1..], phase);
      var first := if entries[0].Fn? then [Call(phase, entries[0].action, [])] else [];
      assert FnCalls(entries, phase) == first + FnCalls(entries[1..], phase);
      assert first == [] ==> first + FnCalls(entries[1..], phase) == FnCalls(entries[1..], phase);
    }
  }

  /** The first failing entry is the last one called, and its error ends
      the array. */
  lemma {:induction false} AbortingStopsAtFirst(entries: seq<Entry>, phase: Phase, k: nat)
    requires k < |entries| && entries[k].Fn? && entries[k].action.Awaited().Some?
    requires forall i :: 0 <= i < k && entries[i].Fn? ==> entries[i].action.Awaited().None?
    ensures RunAborting(entries, phase) == (FnCalls(entries[..k + 1], phase), entries[k].action.Awaited())
  {
    if k == 0 {
      assert entries[..1] == [entries[0]];
      assert FnCalls(entries[..1], phase) == [Call(phase, entries[0].action, [])] + FnCalls([], phase);
      assert [Call(phase, entries[0].action, [])] + FnCalls([], phase) == [Call(phase, entries[0].action, [])];
    } else {
      AbortingStopsAtFirst(entries[1..], phase, k - 1);
      var prefix := entries[..k + 1];
      assert prefix[0] == entries[0] && prefix[1..] == entries[1..][..k];
      var first := if entries[0].Fn? then [Call(phase, entries[0].action, [])] else [];
      assert FnCalls(prefix, phase) == first + FnCalls(entries[1..][..k], phase);
      assert first == [] ==> first + FnCalls(entries[1..][..k], phase) == FnCalls(entries[1..][..k], phase);
    }
  }

  /** Every teardown function runs, in order, whatever the others do. */
  lemma {:induction false} TeardownRunsEvery(entries: seq<Entry>)
    ensures RunTeardown(entries).0 == FnCalls(entries, Teardown)
  {
    if entries != [] {
      TeardownRunsEvery(entries[1..]);
    }
  }

  /** Teardown adds no error exactly when no teardown function fails. */
  lemma {:induction false} TeardownErrorsIff(entries: seq<Entry>)
    ensures RunTeardown(entries).1 == []
        <==> forall i :: 0 <= i < |entries| && entries[i].Fn? ==> entries[i].action.Awaited().None?
  {
    if entries != [] {
      TeardownErrorsIff(entries[1..]);
      assert forall i :: 1 <= i < |entries| ==> entries[i] == entries[1..][i - 1];
    }
  }

  /** When every producer returns, each key is written once, in key order,
      with the producer's result or the literal value. */
  lemma {:induction false} LocalsInKeyOrder(locals: seq<(string, Local)>)
    requires forall i :: 0 <= i < |locals| && locals[i].1.Producer? ==> locals[i].1.action.Awaited().None?
    ensures RunLocals(locals).2.None?
    ensures |RunLocals(locals).1| == |locals|
    ensures forall i :: 0 <= i < |locals| ==> RunLocals(locals).1[i] == (locals[i].0, Stored(locals[i].1))
  {
    if locals != [] {
      LocalsInKeyOrder(locals[1..]);
    }
  }

  /** Every call validate or setup makes belongs to its phase. */
  lemma {:induction false} AbortingPhase(entries: seq<Entry>, phase: Phase)
    ensures forall i :: 0 <= i < |RunAborting(entries, phase).0| ==>
      RunAborting(entries, phase).0[i].phase == phase && RunAborting(entries, phase).0[i].extra == []
  {
    if entries != [] {
      AbortingPhase(entries[1..], phase);
    }
  }

  /** Every call locals makes is a call of a producer. */
  lemma {:induction false} LocalsPhase(locals: seq<(string, Local)>)
    ensures forall i :: 0 <= i < |RunLocals(locals).0| ==>
      RunLocals(locals).0[i].phase == Locals && RunLocals(locals).0[i].extra == []
  {
    if locals != [] {
      LocalsPhase(locals[1..]);
    }
  }

  /** When unavailable, nothing the caller supplied runs, and the reply is
      the 503 `UnavailableError`. */
  lemma UnavailableRunsNothing(w: Wrapped, params: seq<Value>, code: int)
    requires w.unavailable
    ensures ModulePlan(w, params).calls == [] && ModulePlan(w, params).writes == []
    ensures FinalStatus(code, ModulePlan(w, params)) == 503
    ensures ReplySends(ModulePlan(w, params).final) == [Json(Unavailable)]
  {
  }

  /** A failure in validate, setup or locals skips everything after it:
      the later phases, the handler and teardown never run. */
  lemma SkippedStepsNeverRun(w: Wrapped, params: seq<Value>)
    requires !ReachesHandler(w)
    ensures var p := ModulePlan(w, params);
      (forall i :: 0 <= i < |p.calls| ==> p.calls[i].phase != Handle && p.calls[i].phase != Teardown)
      && (!w.unavailable && RunAborting(w.validate, Validate).1.Some? ==>
            forall i :: 0 <= i < |p.calls| ==> p.calls[i].phase == Validate)
      && (!w.unavailable && RunAborting(w.setup, Setup).1.Some? ==>
            forall i :: 0 <= i < |p.calls| ==> p.calls[i].phase != Locals)
  {
    var p := ModulePlan(w, params);
    AbortingPhase(w.validate, Validate);
    AbortingPhase(w.setup, Setup);
    LocalsPhase(w.locals);
    if !w.unavailable {
      var vc := RunAborting(w.validate, Validate).0;
      var sc := RunAborting(w.setup, Setup).0;
      var lc := RunLocals(w.locals).0;
      if RunAborting(w.validate, Validate).1.None? && RunAborting(w.setup, Setup).1.None? {
        assert p.calls == vc + sc + lc;
      }
    }
  }

  /** Once past locals, the handler is called exactly once, with the
      request's extra arguments, and then every teardown function. */
  lemma HandlerCalledOnce(w: Wrapped, params: seq<Value>)
    requires ReachesHandler(w)
    ensures var p := ModulePlan(w, params);
      var n := |p.calls| - |FnCalls(w.teardown, Teardown)|;
      0 < n && p.calls[n - 1] == Call(Handle, w.handler.action, params)
      && (forall i :: 0 <= i < |p.calls| && p.calls[i].phase == Handle ==> i == n - 1)
      && p.calls[n..] == FnCalls(w.teardown, Teardown)
  {
    TeardownRunsEvery(w.teardown);
    AbortingPhase(w.validate, Validate);
    AbortingPhase(w.setup, Setup);
    LocalsPhase(w.locals);
    var vc := RunAborting(w.validate, Validate).0;
    var sc := RunAborting(w.setup, Setup).0;
    var lc := RunLocals(w.locals).0;
    var tc := FnCalls(w.teardown, Teardown);
    var pre := vc + sc + lc;
    assert ModulePlan(w, params).calls == pre + [Call(Handle, w.handler.action, params)] + tc;
    assert forall i :: 0 <= i < |pre| ==> pre[i].phase != Handle by {
      forall i | 0 <= i < |pre|
        ensures pre[i].phase != Handle
      {
        if i < |vc| { assert pre[i] == vc[i]; }
        else if i < |vc| + |sc| { assert pre[i] == sc[i - |vc|]; }
        else { assert pre[i] == lc[i - |vc| - |sc|]; }
      }
    }
  }

  /** The final decision: no reply exactly when the handler and every
      teardown function succeed; otherwise the reply carries the first
      runtime error's status and lists the entries of every runtime error,
      in order. */
  lemma FinalDecision(w: Wrapped, params: seq<Value>)
    requires ReachesHandler(w)
    ensures var p := ModulePlan(w, params);
      var errs := CaughtErrors(w.handler.action) + RunTeardown(w.teardown).1;
      (p.final.None? <==>
         (w.handler.action.Awaited().None?
          && forall i :: 0 <= i < |w.teardown| && w.teardown[i].Fn? ==> w.teardown[i].action.Awaited().None?))
      && (p.final.Some? ==>
            errs != [] && p.final.value.IsProjectError()
            && ErrorReply(p.final.value).status == Status(errs[0])
            && Items(p.final.value.error) == AllItems(errs))
  {
    var errs := CaughtErrors(w.handler.action) + RunTeardown(w.teardown).1;
    TeardownErrorsIff(w.teardown);
    if errs != [] {
      DecideKeepsEveryError(errs);
    }
  }

  /** Whatever reaches the outer catch, the body sent satisfies the error
      schema; a non-project error is never sent as it is. */
  lemma RepliesAreErrorBodies(w: Wrapped, params: seq<Value>)
    ensures var p := ModulePlan(w, params);
      p.final.Some? ==> IsErrorBody(ReplySends(p.final)[0])
                        && (!p.final.value.IsProjectError() ==> FinalStatus(0, p) == 500)
  {
  }

  // ----- The catch blocks as written, for `null` and `undefined` -----

  /** How an invocation ends when its catch blocks read `error.isProjectError`
      as written: the outer catch answers (or nothing reached it), or the
      read throws out of the outer catch and the wrapper's promise rejects
      with nothing sent. */
  datatype Ending = Answered(final: Option<Thrown>) | Escaped

  datatype WrittenPlan = WrittenPlan(calls: seq<Call>, writes: seq<(string, Value)>, ending: Ending)

  /** Teardown as written: a `null` or `undefined` error makes the catch
      throw, which leaves the loop; the flag says whether that happened. */
  function RunTeardownAsWritten(entries: seq<Entry>): (r: (seq<Call>, seq<ProjectError>, bool))
  {
    if entries == [] then ([], [], false)
    else match entries[0]
      case NotFunction => RunTeardownAsWritten(entries[1..])
      case Fn(a) =>
        if a.Awaited().Some? && CatchAsWritten(a.Awaited().value).None? then ([Call(Teardown, a, [])], [], true)
        else
          var rest := RunTeardownAsWritten(entries[1..]);
          ([Call(Teardown, a, [])] + rest.0, CaughtErrors(a) + rest.1, rest.2)
  }

  /** The outer catch as written, for a value thrown before the handler. */
  function OuterEnding(final: Option<Thrown>): Ending
  {
    if final.Some? && OuterCatchAsWritten(final.value).None? then Escaped else Answered(final)
  }

  /** The run as written. It differs from `ModulePlan` only where a thrown
      value is `null` or `undefined`: before the handler the wrapper
      escapes; in the handler's catch or a teardown catch the `TypeError`
      skips the rest of teardown and the collected errors, and the outer
      catch answers it as unhandled. */
  function ModulePlanAsWritten(w: Wrapped, params: seq<Value>): WrittenPlan
  {
    if w.unavailable then WrittenPlan([], [], Answered(Some(Project(Unavailable))))
    else
      var (vc, ve) := RunAborting(w.validate, Validate);
      if ve.Some? then WrittenPlan(vc, [], OuterEnding(ve))
      else
        var (sc, se) := RunAborting(w.setup, Setup);
        if se.Some? then WrittenPlan(vc + sc, [], OuterEnding(se))
        else
          var (lc, lw, le) := RunLocals(w.locals);
          if le.Some? then WrittenPlan(vc + sc + lc, lw, OuterEnding(le))
          else
            var a := w.handler.action;
            var upToHandler := vc + sc + lc + [Call(Handle, a, params)];
            if a.Awaited().Some? && CatchAsWritten(a.Awaited().value).None? then
              WrittenPlan(upToHandler, lw, Answered(Some(PropertyReadError)))
            else
              var (tc, terrs, broke) := RunTeardownAsWritten(w.teardown);
              if broke then WrittenPlan(upToHandler + tc, lw, Answered(Some(PropertyReadError)))
              else
                var decided := Decide(CaughtErrors(a) + terrs);
                WrittenPlan(upToHandler + tc, lw, Answered(if decided.Some? then Some(Project(decided.value)) else None))
  }

  /** The bodies the outer catch sends, as written. */
  function WrittenReplySends(e: Ending): seq<Value>
  {
    if e.Answered? then ReplySends(e.final) else []
  }

  /** No function entry fails with `null` or `undefined`. */
  predicate NoNullishEntry(entries: seq<Entry>)
  {
    forall i :: 0 <= i < |entries| && entries[i].Fn? ==> entries[i].action.Awaited() != Some(Nullish)
  }

  /** No user function of the wrapper fails with `null` or `undefined`. */
  predicate NoNullish(w: Wrapped)
  {
    && NoNullishEntry(w.validate) && NoNullishEntry(w.setup) && NoNullishEntry(w.teardown)
    && w.handler.action.Awaited() != Some(Nullish)
    && forall i :: 0 <= i < |w.locals| && w.locals[i].1.Producer? ==> w.locals[i].1.action.Awaited() != Some(Nullish)
  }

  lemma {:induction false} AbortingErrorNotNullish(entries: seq<Entry>, phase: Phase)
    requires NoNullishEntry(entries)
    ensures RunAborting(entries, phase).1 != Some(Nullish)
  {
    if entries != [] {
      assert NoNullishEntry(entries[1..]) by {
        forall i | 0 <= i < |entries[1..]| && entries[1..][i].Fn?
          ensures entries[1..][i].action.Awaited() != Some(Nullish)
        {
          assert entries[1..][i] == entries[i + 1];
        }
      }
      AbortingErrorNotNullish(entries[1..], phase);
    }
  }

  lemma {:induction false} LocalsErrorNotNullish(locals: seq<(string, Local)>)
    requires forall i :: 0 <= i < |locals| && locals[i].1.Producer? ==> locals[i].1.action.Awaited() != Some(Nullish)
    ensures RunLocals(locals).2 != Some(Nullish)
  {
    if locals != [] {
      LocalsErrorNotNullish(locals[1..]);
    }
  }

  lemma {:induction false} TeardownAsWrittenAgrees(entries: seq<Entry>)
    requires NoNullishEntry(entries)
    ensures RunTeardownAsWritten(entries) == (RunTeardown(entries).0, RunTeardown(entries).1, false)
  {
    if entries != [] {
      assert NoNullishEntry(entries[1..]) by {
        forall i | 0 <= i < |entries[1..]| && entries[1..][i].Fn?
          ensures entries[1..][i].action.Awaited() != Some(Nullish)
        {
          assert entries[1..][i] == entries[i + 1];
        }
      }
      TeardownAsWrittenAgrees(entries[1..]);
    }
  }

  /** Whenever no user function fails with `null` or `undefined`, the run as
      written is exactly the planned run, answered by the outer catch. */
  lemma AsWrittenAgrees(w: Wrapped, params: seq<Value>)
    requires NoNullish(w)
    ensures var p := ModulePlan(w, params);
      ModulePlanAsWritten(w, params) == WrittenPlan(p.calls, p.writes, Answered(p.final))
  {
    AbortingErrorNotNullish(w.validate, Validate);
    AbortingErrorNotNullish(w.setup, Setup);
    LocalsErrorNotNullish(w.locals);
    TeardownAsWrittenAgrees(w.teardown);
  }

  /** As written, a validate, setup or locals function that fails with
      `null` or `undefined` makes the wrapper's promise reject with nothing
      sent; with the intended reading it is answered with a 500 and the
      unhandled error's body. */
  lemma NullishBeforeHandlerEscapes(w: Wrapped, params: seq<Value>)
    requires ModulePlan(w, params).final == Some(Nullish)
    ensures !ReachesHandler(w)
    ensures ModulePlanAsWritten(w, params) == WrittenPlan(ModulePlan(w, params).calls, ModulePlan(w, params).writes, Escaped)
    ensures WrittenReplySends(ModulePlanAsWritten(w, params).ending) == []
    ensures ReplySends(ModulePlan(w, params).final) == [Json(Unhandled)]
    ensures FinalStatus(0, ModulePlan(w, params)) == 500
  {
  }

  /** As written, a handler that fails with `null` or `undefined` skips
      every teardown function and is answered as unhandled; the intended
      run calls every teardown function first. */
  lemma NullishHandlerSkipsTeardown(w: Wrapped, params: seq<Value>)
    requires ReachesHandler(w) && w.handler.action.Awaited() == Some(Nullish)
    ensures var p := ModulePlan(w, params);
      var n := |p.calls| - |FnCalls(w.teardown, Teardown)|;
      var q := ModulePlanAsWritten(w, params);
      0 < n && q.calls == p.calls[..n] && q.writes == p.writes
      && q.ending == Answered(Some(PropertyReadError))
      && WrittenReplySends(q.ending) == [Json(Unhandled)]
      && p.calls[n..] == FnCalls(w.teardown, Teardown)
  {
    HandlerCalledOnce(w, params);
    var vc := RunAborting(w.validate, Validate).0;
    var sc := RunAborting(w.setup, Setup).0;
    var lc := RunLocals(w.locals).0;
    var upToHandler := vc + sc + lc + [Call(Handle, w.handler.action, params)];
    var p := ModulePlan(w, params);
    assert p.calls == upToHandler + RunTeardown(w.teardown).0;
    TeardownRunsEvery(w.teardown);
    assert p.calls[..|upToHandler|] == upToHandler;
    assert ModulePlanAsWritten(w, params) == WrittenPlan(upToHandler, RunLocals(w.locals).1, Answered(Some(PropertyReadError)));
  }

  /** As written, the first teardown function that fails with `null` or
      `undefined` is the last one called, and the errors collected so far
      are dropped. */
  lemma {:induction false} NullishTeardownStopsLoop(entries: seq<Entry>, k: nat)
    requires k < |entries| && entries[k].Fn? && entries[k].action.Awaited() == Some(Nullish)
    requires NoNullishEntry(entries[..k])
    ensures RunTeardownAsWritten(entries).0 == FnCalls(entries[..k + 1], Teardown)
    ensures RunTeardownAsWritten(entries).2
  {
    if k == 0 {
      assert entries[..1] == [entries[0]];
      assert FnCalls(entries[..1], Teardown) == [Call(Teardown, entries[0].action, [])] + FnCalls([], Teardown);
    } else {
      var prefix := entries[..k + 1];
      assert prefix[0] == entries[0] && prefix[1..] == entries[1..][..k];
      assert entries[0] == entries[..k][0];
      var before := entries[1..][..k - 1];
      assert NoNullishEntry(before) by {
        forall i | 0 <= i < |before|
          ensures before[i].Fn? ==> before[i].action.Awaited() != Some(Nullish)
        {
          assert before[i] == entries[..k][i + 1];
        }
      }
      NullishTeardownStopsLoop(entries[1..], k - 1);
      var first := if entries[0].Fn? then [Call(Teardown, entries[0].action, [])] else [];
      assert FnCalls(prefix, Teardown) == first + FnCalls(entries[1..][..k], Teardown);
      assert first == [] ==> first + FnCalls(entries[1..][..k], Teardown) == FnCalls(entries[1..][..k], Teardown);
    }
  }

  /** A concrete case: one validator whose promise rejects with no reason.
      As written nothing is sent; the intended reading answers 500. */
  lemma RejectedValidatorGetsNoReply()
    ensures var v := Action("validator", None, None, Rejected(Nullish));
      var w := ProjectHandler(Handler("handler", Action("handler", None, None, Returned)),
                              NoOptions.(unavailable := Some(false), validate := [Fn(v)]),
                              Env(None, None, None, None, None, None, false, None));
      ModulePlanAsWritten(w, []).ending == Escaped
      && ReplySends(ModulePlan(w, []).final) == [Json(Unhandled)]
  {
  }

  // ----- The wrapper, step by step -----

  function B2n(b: bool): nat { if b then 1 else 0 }

  /** The response hook is installed once `originalJson` is saved. */
  predicate Installed(res: Response)
    reads res`scratch
  {
    res.scratch.Some? && res.scratch.value.originalJson.Some?
  }

  /** What holds between invocations of newer wrappers on one request and
      one response (which the framework created with its own `json`):
      each flag counts its log entry, the request summary comes first, the
      hook is installed at most once, it forwards to the framework's
      `json`, and it decorates at most once, with the name and version of
      the wrapper that installed it, capturing the first body sent. */
  ghost predicate ModuleInv(req: Request, res: Response, log: Log)
    reads req`scratch, res, log`infos, log`handlerTags, log`traceModeNotices
  {
    RequestLogInv(req, res, log) && ResponseInv(res)
  }

  /** The request side: each flag counts its log entry, and the request
      summary comes first. */
  ghost predicate RequestLogInv(req: Request, res: Response, log: Log)
    reads req`scratch, res`listeners, log`infos, log`handlerTags, log`traceModeNotices
  {
    && (req.scratch.None? ==>
          log.infos == [] && log.handlerTags == [] && log.traceModeNotices == 0 && res.listeners == [])
    && (req.scratch.Some? ==>
          var s := req.scratch.value;
          |log.handlerTags| == B2n(s.initLogging) && log.traceModeNotices == B2n(s.initLogging)
          && |log.infos| == B2n(s.loggedRequestInfo) + B2n(s.loggedResponseInfo)
          && (s.loggedRequestInfo ==> log.infos[0] == RequestInfo(SummarizeRequest.SummarizeRequest(req.data)))
          && (s.loggedResponseInfo ==> s.loggedRequestInfo && log.infos[1].ResponseInfo?)
          && (|res.listeners| > 0 ==> s.loggedRequestInfo))
  }

  /** The response side: the hook is installed at most once, it forwards
      to the framework's `json`, and it decorates at most once, with the
      name and version of the wrapper that installed it, capturing the first
      body sent. */
  ghost predicate ResponseInv(res: Response)
    reads res`json, res`scratch, res`sent, res`decorations, res`slots, res`listeners
  {
    && res.slots == []
    && (|res.listeners| > 0 ==> res.listeners[0] == ModuleFinish)
    && (!Installed(res) ==>
          res.json == Native && res.sent == [] && res.decorations == [] && res.listeners == []
          && (res.scratch.Some? ==> res.scratch.value == FreshResScratch))
    && (Installed(res) ==>
          var s := res.scratch.value;
          s.originalJson == Some(Native) && res.json.ModuleHook? && res.json.original == Native
          && (s.decoratedResponse <==> |res.sent| > 0)
          && |res.decorations| == B2n(s.decoratedResponse)
          && (s.decoratedResponse ==>
                res.decorations[0] == Decoration(res.json.handler, res.json.version)
                && s.logResponseBodyJson == Some(res.sent[0]))
          && (!s.decoratedResponse ==> s.logResponseBodyJson.None?))
  }

  /** A user function runs: `res.status(code)`, then `res.json(body)`. */
  method Perform(a: Action, req: Request, res: Response, log: Log, env: Env)
    requires ModuleInv(req, res, log) && Installed(res)
    modifies res`statusCode, res`scratch, res`slots, res`sent, res`decorations, res`headers, log`warnings
    ensures ModuleInv(req, res, log) && Installed(res)
    ensures res.statusCode == a.status.GetOr(old(res.statusCode))
    ensures res.sent == old(res.sent) + (if a.send.Some? then [a.send.value] else [])
    ensures res.headers == old(res.headers) && log.warnings == old(log.warnings)
  {
    if a.status.Some? {
      res.statusCode := a.status.value;
    }
    if a.send.Some? {
      Dispatch(res.json, res, log, env, a.send.value);
    }
  }

  /** One more call, run in place: the response's status and bodies stay
      those the calls so far describe. */
  method PerformCall(c: Call, ghost code0: int, ghost sent0: seq<Value>, ghost calls: seq<Call>,
                     req: Request, res: Response, log: Log, env: Env)
    requires ModuleInv(req, res, log) && Installed(res)
    requires res.statusCode == LastStatus(code0, calls) && res.sent == sent0 + Sends(calls)
    modifies res`statusCode, res`scratch, res`slots, res`sent, res`decorations, res`headers, log`warnings
    ensures ModuleInv(req, res, log) && Installed(res)
    ensures res.statusCode == LastStatus(code0, calls + [c]) && res.sent == sent0 + Sends(calls + [c])
    ensures res.headers == old(res.headers) && log.warnings == old(log.warnings)
  {
    Snoc(code0, calls, c);
    Perform(c.action, req, res, log, env);
  }

  /** The rest of validate or setup from entry `i`, given the calls made
      before it (none of which failed). */
  predicate AbortingFrom(entries: seq<Entry>, phase: Phase, i: nat, calls: seq<Call>)
    requires i <= |entries|
  {
    var all := RunAborting(entries, phase);
    var r := RunAborting(entries[i..], phase);
    all.0 == calls + r.0 && all.1 == r.1
  }

  /** One entry of validate or setup, on the specification side. */
  lemma AbortingStep(entries: seq<Entry>, phase: Phase, i: nat, calls: seq<Call>)
    requires i < |entries| && AbortingFrom(entries, phase, i, calls)
    ensures entries[i].NotFunction? ==> AbortingFrom(entries, phase, i + 1, calls)
    ensures entries[i].Fn? && entries[i].action.Awaited().None? ==>
      AbortingFrom(entries, phase, i + 1, calls + [Call(phase, entries[i].action, [])])
    ensures entries[i].Fn? && entries[i].action.Awaited().Some? ==>
      RunAborting(entries, phase) == (calls + [Call(phase, entries[i].action, [])], entries[i].action.Awaited())
  {
    var tail := entries[i..];
    assert tail[0] == entries[i] && tail[1..] == entries[i + 1..];
    var r := RunAborting(entries[i + 1..], phase);
    if entries[i].Fn? {
      var c := Call(phase, entries[i].action, []);
      if entries[i].action.Awaited().None? {
        assert RunAborting(tail, phase) == ([c] + r.0, r.1);
        assert calls + ([c] + r.0) == (calls + [c]) + r.0;
      } else {
        assert RunAborting(tail, phase) == ([c], entries[i].action.Awaited());
      }
    } else {
      assert RunAborting(tail, phase) == r;
    }
  }

  /** Validate or setup, run in place. */
  method RunAbortingSteps(entries: seq<Entry>, phase: Phase, req: Request, res: Response, log: Log, env: Env)
    returns (calls: seq<Call>, err: Option<Thrown>)
    requires ModuleInv(req, res, log) && Installed(res)
    modifies res`statusCode, res`scratch, res`slots, res`sent, res`decorations, res`headers, log`warnings
    ensures ModuleInv(req, res, log) && Installed(res)
    ensures (calls, err) == RunAborting(entries, phase)
    ensures res.sent == old(res.sent) + Sends(calls)
    ensures res.statusCode == LastStatus(old(res.statusCode), calls)
    ensures res.headers == old(res.headers) && log.warnings == old(log.warnings)
  {
    calls := [];
    err := None;
    ghost var code0, sent0, headers0, warnings0 := res.statusCode, res.sent, res.headers, log.warnings;
    var i := 0;
    assert entries[i..] == entries;
    assert calls + RunAborting(entries, phase).0 == RunAborting(entries, phase).0;
    assert AbortingFrom(entries, phase, i, calls);
    while i < |entries| && err.None?
      invariant 0 <= i <= |entries|
      invariant err.None? ==> AbortingFrom(entries, phase, i, calls)
      invariant err.Some? ==> RunAborting(entries, phase) == (calls, err)
      invariant ModuleInv(req, res, log) && Installed(res)
      invariant res.statusCode == LastStatus(code0, calls) && res.sent == sent0 + Sends(calls)
      invariant res.headers == headers0 && log.warnings == warnings0
    {
      AbortingStep(entries, phase, i, calls);
      if entries[i].Fn? {
        var a := entries[i].action;
        var c := Call(phase, a, []);
        PerformCall(c, code0, sent0, calls, req, res, log, env);
        calls := calls + [c];
        err := a.Awaited();
      }
      i := i + 1;
    }
    if err.None? {
      assert entries[i..] == [];
      assert calls + [] == calls;
      assert RunAborting(entries, phase) == (calls, None);
    }
  }

  lemma ApplyWritesSnoc(m: map<string, Value>, writes: seq<(string, Value)>, key: string, v: Value)
    ensures ApplyWrites(m, writes + [(key, v)]) == ApplyWrites(m, writes)[key := v]
  {
    assert (writes + [(key, v)])[..|writes|] == writes;
  }

  /** The rest of `locals` from key `i`, given what ran before it. */
  predicate LocalsFrom(locals: seq<(string, Local)>, i: nat, calls: seq<Call>, writes: seq<(string, Value)>)
    requires i <= |locals|
  {
    var all := RunLocals(locals);
    var r := RunLocals(locals[i..]);
    all.0 == calls + r.0 && all.1 == writes + r.1 && all.2 == r.2
  }

  /** One key of `locals`, on the specification side. */
  lemma LocalsStep(locals: seq<(string, Local)>, i: nat, calls: seq<Call>, writes: seq<(string, Value)>)
    requires i < |locals| && LocalsFrom(locals, i, calls, writes)
    ensures Aborts(locals[i].1) ==>
      RunLocals(locals) == (calls + CalledBy(locals[i].1), writes, locals[i].1.action.Awaited())
    ensures !Aborts(locals[i].1) ==>
      LocalsFrom(locals, i + 1, calls + CalledBy(locals[i].1), writes + [(locals[i].0, Stored(locals[i].1))])
  {
    var tail := locals[i..];
    assert tail[0] == locals[i] && tail[1..] == locals[i + 1..];
    var l := locals[i].1;
    if Aborts(l) {
      assert RunLocals(tail) == (CalledBy(l), [], l.action.Awaited());
      assert writes + [] == writes;
    } else {
      var r := RunLocals(locals[i + 1..]);
      assert RunLocals(tail) == (CalledBy(l) + r.0, [(locals[i].0, Stored(l))] + r.1, r.2);
      AppendAssoc(calls, CalledBy(l), r.0);
      AppendAssoc(writes, [(locals[i].0, Stored(l))], r.1);
    }
  }

  /** One key of `locals`, run in place. */
  method LocalsKey(locals: seq<(string, Local)>, i: nat, calls0: seq<Call>, writes0: seq<(string, Value)>,
                   ghost code0: int, ghost sent0: seq<Value>, ghost locals0: map<string, Value>,
                   req: Request, res: Response, log: Log, env: Env)
    returns (calls: seq<Call>, writes: seq<(string, Value)>, err: Option<Thrown>)
    requires i < |locals| && LocalsFrom(locals, i, calls0, writes0)
    requires ModuleInv(req, res, log) && Installed(res)
    requires res.statusCode == LastStatus(code0, calls0) && res.sent == sent0 + Sends(calls0)
    requires req.locals == Some(ApplyWrites(locals0, writes0))
    modifies req`locals, res`statusCode, res`scratch, res`slots, res`sent, res`decorations, res`headers, log`warnings
    ensures ModuleInv(req, res, log) && Installed(res)
    ensures err.None? ==> LocalsFrom(locals, i + 1, calls, writes)
    ensures err.Some? ==> RunLocals(locals) == (calls, writes, err)
    ensures res.statusCode == LastStatus(code0, calls) && res.sent == sent0 + Sends(calls)
    ensures res.headers == old(res.headers) && log.warnings == old(log.warnings)
    ensures req.locals == Some(ApplyWrites(locals0, writes))
  {
    LocalsStep(locals, i, calls0, writes0);
    calls, writes, err := calls0, writes0, None;
    var (key, l) := locals[i];
    if l.Producer? {
      var c := Call(Locals, l.action, []);
      PerformCall(c, code0, sent0, calls, req, res, log, env);
      calls := calls + [c];
    }
    // A failed producer ends the run before its key is written.
    if Aborts(l) {
      err := l.action.Awaited();
    } else {
      ApplyWritesSnoc(locals0, writes, key, Stored(l));
      req.locals := Some(req.locals.value[key := Stored(l)]);
      writes := writes + [(key, Stored(l))];
    }
  }

  /** Locals in key order, written into `req.locals`. */
  method RunLocalsSteps(locals: seq<(string, Local)>, req: Request, res: Response, log: Log, env: Env)
    returns (calls: seq<Call>, writes: seq<(string, Value)>, err: Option<Thrown>)
    requires ModuleInv(req, res, log) && Installed(res) && req.locals.Some?
    modifies req`locals, res`statusCode, res`scratch, res`slots, res`sent, res`decorations, res`headers, log`warnings
    ensures ModuleInv(req, res, log) && Installed(res)
    ensures (calls, writes, err) == RunLocals(locals)
    ensures req.locals == Some(ApplyWrites(old(req.locals).value, writes))
    ensures res.sent == old(res.sent) + Sends(calls)
    ensures res.statusCode == LastStatus(old(res.statusCode), calls)
    ensures res.headers == old(res.headers) && log.warnings == old(log.warnings)
  {
    calls, writes, err := [], [], None;
    ghost var code0, sent0, headers0, warnings0, locals0 := res.statusCode, res.sent, res.headers, log.warnings, req.locals.value;
    var i := 0;
    assert locals[i..] == locals;
    assert calls + RunLocals(locals).0 == RunLocals(locals).0 && writes + RunLocals(locals).1 == RunLocals(locals).1;
    assert LocalsFrom(locals, i, calls, writes);
    while i < |locals| && err.None?
      invariant 0 <= i <= |locals|
      invariant err.None? ==> LocalsFrom(locals, i, calls, writes)
      invariant err.Some? ==> RunLocals(locals) == (calls, writes, err)
      invariant ModuleInv(req, res, log) && Installed(res)
      invariant res.statusCode == LastStatus(code0, calls) && res.sent == sent0 + Sends(calls)
      invariant res.headers == headers0 && log.warnings == warnings0
      invariant req.locals == Some(ApplyWrites(locals0, writes))
    {
      calls, writes, err := LocalsKey(locals, i, calls, writes, code0, sent0, locals0, req, res, log, env);
      i := i + 1;
    }
    if err.None? {
      assert locals[i..] == [];
      assert calls + [] == calls && writes + [] == writes;
    }
  }

  /** The rest of teardown from entry `i`, given the calls made and the
      errors kept before it. */
  predicate TeardownFrom(entries: seq<Entry>, i: nat, calls: seq<Call>, errs: seq<ProjectError>)
    requires i <= |entries|
  {
    var all := RunTeardown(entries);
    var r := RunTeardown(entries[i..]);
    all.0 == calls + r.0 && all.1 == errs + r.1
  }

  /** One teardown entry, on the specification side. */
  lemma TeardownStep(entries: seq<Entry>, i: nat, calls: seq<Call>, errs: seq<ProjectError>)
    requires i < |entries| && TeardownFrom(entries, i, calls, errs)
    ensures entries[i].NotFunction? ==> TeardownFrom(entries, i + 1, calls, errs)
    ensures entries[i].Fn? ==>
      TeardownFrom(entries, i + 1, calls + [Call(Teardown, entries[i].action, [])], errs + CaughtErrors(entries[i].action))
  {
    var tail := entries[i..];
    assert tail[0] == entries[i] && tail[1..] == entries[i + 1..];
    var r := RunTeardown(entries[i + 1..]);
    if entries[i].Fn? {
      var a := entries[i].action;
      assert RunTeardown(tail) == ([Call(Teardown, a, [])] + r.0, CaughtErrors(a) + r.1);
      AppendAssoc(calls, [Call(Teardown, a, [])], r.0);
      AppendAssoc(errs, CaughtErrors(a), r.1);
    } else {
      assert RunTeardown(tail) == r;
    }
  }

  /** Teardown, run in place: every function runs, and each error is
      classified and kept. */
  method RunTeardownSteps(entries: seq<Entry>, req: Request, res: Response, log: Log, env: Env)
    returns (calls: seq<Call>, errs: seq<ProjectError>)
    requires ModuleInv(req, res, log) && Installed(res)
    modifies res`statusCode, res`scratch, res`slots, res`sent, res`decorations, res`headers, log`warnings
    ensures ModuleInv(req, res, log) && Installed(res)
    ensures (calls, errs) == RunTeardown(entries)
    ensures res.sent == old(res.sent) + Sends(calls)
    ensures res.statusCode == LastStatus(old(res.statusCode), calls)
    ensures res.headers == old(res.headers) && log.warnings == old(log.warnings)
  {
    calls, errs := [], [];
    ghost var code0, sent0, headers0, warnings0 := res.statusCode, res.sent, res.headers, log.warnings;
    var i := 0;
    assert entries[i..] == entries;
    assert calls + RunTeardown(entries).0 == RunTeardown(entries).0 && errs + RunTeardown(entries).1 == RunTeardown(entries).1;
    while i < |entries|
      invariant 0 <= i <= |entries|
      invariant TeardownFrom(entries, i, calls, errs)
      invariant ModuleInv(req, res, log) && Installed(res)
      invariant res.statusCode == LastStatus(code0, calls) && res.sent == sent0 + Sends(calls)
      invariant res.headers == headers0 && log.warnings == warnings0
    {
      TeardownStep(entries, i, calls, errs);
      if entries[i].Fn? {
        var a := entries[i].action;
        var c := Call(Teardown, a, []);
        PerformCall(c, code0, sent0, calls, req, res, log, env);
        calls := calls + [c];
        if a.Awaited().Some? {
          errs := errs + [Classify(a.Awaited().value)];
        } else {
          assert errs + CaughtErrors(a) == errs;
        }
      }
      i := i + 1;
    }
    assert entries[i..] == [];
    assert calls + [] == calls && errs + [] == errs;
  }

  /** Whether this request has not yet logged its summary. */
  predicate FirstOnRequest(scratch: Option<ReqScratch>)
  {
    scratch.None? || !scratch.value.loggedRequestInfo
  }

  /** Scratch records, logging set-up, the request log, the response hook
      and the finish listener: everything before the availability gate. */
  method Prepare(w: Wrapped, req: Request, res: Response, log: Log)
    requires ModuleInv(req, res, log)
    modifies req`locals, req`scratch, res`hasLocals, res`scratch, res`json, res`listeners,
             log`infos, log`handlerTags, log`traceModeNotices
    ensures ModuleInv(req, res, log) && Installed(res)
    ensures req.locals == Some(old(req.locals).GetOr(map[])) && res.hasLocals
    ensures req.scratch.Some? && req.scratch.value.initLogging && req.scratch.value.loggedRequestInfo
    ensures req.scratch.value.loggedResponseInfo == (old(req.scratch).Some? && old(req.scratch).value.loggedResponseInfo)
    ensures log.infos == old(log.infos)
                         + (if FirstOnRequest(old(req.scratch))
                            then [RequestInfo(SummarizeRequest.SummarizeRequest(req.data))] else [])
    ensures log.handlerTags == old(log.handlerTags)
                               + (if old(req.scratch).None? || !old(req.scratch).value.initLogging then [w.name] else [])
    ensures !old(Installed(res)) ==> res.json == ModuleHook(w.name, w.version, Native)
    ensures old(Installed(res)) ==> res.json == old(res.json) && res.scratch == old(res.scratch)
    ensures res.scratch.value.decoratedResponse == old(res.Decorated())
    ensures res.listeners == old(res.listeners) + [ModuleFinish]
  {
    CreateScratch(req, res, log);
    InitLogging(w, req, res, log);
    LogRequest(req, res, log);
    InstallHook(w, req, res, log);
    res.listeners := res.listeners + [ModuleFinish];
  }

  /** `req.locals`, `res.locals` and their scratch records, each created
      only when absent. */
  method CreateScratch(req: Request, res: Response, log: Log)
    requires ModuleInv(req, res, log)
    modifies req`locals, req`scratch, res`hasLocals, res`scratch
    ensures ModuleInv(req, res, log)
    ensures req.locals == Some(old(req.locals).GetOr(map[])) && res.hasLocals
    ensures req.scratch == Some(old(req.scratch).GetOr(FreshReqScratch))
    ensures res.scratch == Some(old(res.scratch).GetOr(FreshResScratch))
  {
    if req.locals.None? {
      req.locals := Some(map[]);
    }
    if req.scratch.None? {
      req.scratch := Some(FreshReqScratch);
    }
    CreateResponseScratch(req, res, log);
  }

  method CreateResponseScratch(req: Request, res: Response, log: Log)
    requires ModuleInv(req, res, log)
    modifies res`hasLocals, res`scratch
    ensures ModuleInv(req, res, log)
    ensures res.hasLocals && res.scratch == Some(old(res.scratch).GetOr(FreshResScratch))
  {
    if !res.hasLocals {
      res.hasLocals := true;
    }
    if res.scratch.None? {
      res.scratch := Some(FreshResScratch);
    }
  }

  /** Logging set-up, once per request: the handler tag and the trace-mode
      notice. */
  method InitLogging(w: Wrapped, req: Request, res: Response, log: Log)
    requires ModuleInv(req, res, log) && req.scratch.Some?
    modifies req`scratch, log`handlerTags, log`traceModeNotices
    ensures ModuleInv(req, res, log)
    ensures req.scratch == Some(old(req.scratch).value.(initLogging := true))
    ensures log.handlerTags == old(log.handlerTags) + (if old(req.scratch).value.initLogging then [] else [w.name])
  {
    if !req.scratch.value.initLogging {
      req.scratch := Some(req.scratch.value.(initLogging := true));
      log.handlerTags := log.handlerTags + [w.name];
      log.traceModeNotices := log.traceModeNotices + 1;
    }
  }

  /** The `{ req }` summary, once per request. */
  method LogRequest(req: Request, res: Response, log: Log)
    requires ModuleInv(req, res, log) && req.scratch.Some?
    modifies req`scratch, log`infos
    ensures ModuleInv(req, res, log)
    ensures req.scratch == Some(old(req.scratch).value.(loggedRequestInfo := true))
    ensures log.infos == old(log.infos)
                         + (if old(req.scratch).value.loggedRequestInfo then []
                            else [RequestInfo(SummarizeRequest.SummarizeRequest(req.data))])
  {
    if !req.scratch.value.loggedRequestInfo {
      req.scratch := Some(req.scratch.value.(loggedRequestInfo := true));
      log.infos := log.infos + [RequestInfo(SummarizeRequest.SummarizeRequest(req.data))];
    }
  }

  /** The `res.json` hook, installed only while no original is saved. */
  method InstallHook(w: Wrapped, req: Request, res: Response, log: Log)
    requires ModuleInv(req, res, log) && res.scratch.Some?
    modifies res`scratch, res`json
    ensures ModuleInv(req, res, log) && Installed(res)
    ensures !old(Installed(res)) ==>
      res.json == ModuleHook(w.name, w.version, Native) && res.scratch == Some(FreshResScratch.(originalJson := Some(Native)))
    ensures old(Installed(res)) ==> res.json == old(res.json) && res.scratch == old(res.scratch)
  {
    if res.scratch.value.originalJson.None? {
      res.scratch := Some(res.scratch.value.(originalJson := Some(res.json)));
      res.json := ModuleHook(w.name, w.version, res.json);
    }
  }

  /** The outer catch: the error's own status and JSON, or a generic
      `UnhandledError`'s for anything that is not a project error. */
  method Respond(t: Thrown, req: Request, res: Response, log: Log, env: Env)
    requires ModuleInv(req, res, log) && Installed(res)
    modifies res`statusCode, res`scratch, res`slots, res`sent, res`decorations, res`headers, log`warnings
    ensures ModuleInv(req, res, log) && Installed(res)
    ensures res.statusCode == ErrorReply(t).status
    ensures res.sent == old(res.sent) + [ErrorReply(t).body]
    ensures res.headers == old(res.headers) && log.warnings == old(log.warnings)
  {
    var reply := ErrorReply(t);
    res.statusCode := reply.status;
    Dispatch(res.json, res, log, env, reply.body);
  }

  /** The handler, then teardown, then the final decision. */
  method RunHandlerAndTeardown(w: Wrapped, params: seq<Value>, req: Request, res: Response, log: Log, env: Env)
    returns (calls: seq<Call>, final: Option<Thrown>)
    requires ModuleInv(req, res, log) && Installed(res)
    modifies res`statusCode, res`scratch, res`slots, res`sent, res`decorations, res`headers, log`warnings
    ensures ModuleInv(req, res, log) && Installed(res)
    ensures calls == [Call(Handle, w.handler.action, params)] + RunTeardown(w.teardown).0
    ensures var decided := Decide(CaughtErrors(w.handler.action) + RunTeardown(w.teardown).1);
      final == if decided.Some? then Some(Project(decided.value)) else None
    ensures res.sent == old(res.sent) + Sends(calls)
    ensures res.statusCode == LastStatus(old(res.statusCode), calls)
    ensures res.headers == old(res.headers) && log.warnings == old(log.warnings)
  {
    ghost var code0, sent0 := res.statusCode, res.sent;
    var runtimeErrors: seq<ProjectError> := [];
    var handled := Call(Handle, w.handler.action, params);
    PerformCall(handled, code0, sent0, [], req, res, log, env);
    assert [] + [handled] == [handled];
    if w.handler.action.Awaited().Some? {
      runtimeErrors := runtimeErrors + [Classify(w.handler.action.Awaited().value)];
    }
    ghost var code1, sent1 := res.statusCode, res.sent;
    var tc, terrs := RunTeardownSteps(w.teardown, req, res, log, env);
    Compose(code0, sent0, [handled], tc, code1, sent1, res.statusCode, res.sent);
    assert [] + [handled] == [handled];
    runtimeErrors := runtimeErrors + terrs;
    assert runtimeErrors == CaughtErrors(w.handler.action) + RunTeardown(w.teardown).1;
    calls := [handled] + tc;
    final := DecideFinal(runtimeErrors);
  }

  /** The statement form of the final decision, branch by branch
      over `runtimeErrors.length`: several runtime errors are thrown
      together as one multi-error, a single one as itself, none means
      success. `Errors.Decide` is its specification and carries the
      properties. */
  method DecideFinal(runtimeErrors: seq<ProjectError>) returns (final: Option<Thrown>)
    ensures final == if Decide(runtimeErrors).Some? then Some(Project(Decide(runtimeErrors).value)) else None
  {
    if |runtimeErrors| > 1 {
      final := Some(Project(Multi(runtimeErrors)));
    } else if |runtimeErrors| == 1 {
      final := Some(Project(runtimeErrors[0]));
    } else {
      final := None;
    }
  }

  /** The plan, branch by branch, once past the availability gate. */
  lemma PlanShape(w: Wrapped, params: seq<Value>)
    requires !w.unavailable
    ensures var v := RunAborting(w.validate, Validate);
      var s := RunAborting(w.setup, Setup);
      var l := RunLocals(w.locals);
      var t := RunTeardown(w.teardown);
      var decided := Decide(CaughtErrors(w.handler.action) + t.1);
      var p := ModulePlan(w, params);
      (v.1.Some? ==> p == Plan(v.0, [], v.1))
      && (v.1.None? && s.1.Some? ==> p == Plan(v.0 + s.0, [], s.1))
      && (v.1.None? && s.1.None? && l.2.Some? ==> p == Plan(v.0 + s.0 + l.0, l.1, l.2))
      && (v.1.None? && s.1.None? && l.2.None? ==>
            p == Plan(v.0 + s.0 + l.0 + ([Call(Handle, w.handler.action, params)] + t.0), l.1,
                      if decided.Some? then Some(Project(decided.value)) else None))
  {
    var v := RunAborting(w.validate, Validate);
    var s := RunAborting(w.setup, Setup);
    var l := RunLocals(w.locals);
    var t := RunTeardown(w.teardown);
    assert v.0 + s.0 + l.0 + [Call(Handle, w.handler.action, params)] + t.0
        == v.0 + s.0 + l.0 + ([Call(Handle, w.handler.action, params)] + t.0);
  }

  /** Everything after the availability gate up to the outer catch. */
  method RunPhases(w: Wrapped, params: seq<Value>, req: Request, res: Response, log: Log, env: Env)
    returns (calls: seq<Call>, writes: seq<(string, Value)>, final: Option<Thrown>)
    requires ModuleInv(req, res, log) && Installed(res) && req.locals.Some? && !w.unavailable
    modifies req`locals, res`statusCode, res`scratch, res`slots, res`sent, res`decorations, res`headers, log`warnings
    ensures ModuleInv(req, res, log) && Installed(res)
    ensures Plan(calls, writes, final) == ModulePlan(w, params)
    ensures req.locals == Some(ApplyWrites(old(req.locals).value, writes))
    ensures res.sent == old(res.sent) + Sends(calls)
    ensures res.statusCode == LastStatus(old(res.statusCode), calls)
    ensures res.headers == old(res.headers) && log.warnings == old(log.warnings)
  {
    ghost var code0, sent0 := res.statusCode, res.sent;
    PlanShape(w, params);
    writes := [];
    var vc, ve := RunAbortingSteps(w.validate, Validate, req, res, log, env);
    calls := vc;
    if ve.Some? {
      final := ve;
      return;
    }
    ghost var code1, sent1 := res.statusCode, res.sent;
    var sc, se := RunAbortingSteps(w.setup, Setup, req, res, log, env);
    Compose(code0, sent0, calls, sc, code1, sent1, res.statusCode, res.sent);
    calls := calls + sc;
    if se.Some? {
      final := se;
      return;
    }
    ghost var code2, sent2 := res.statusCode, res.sent;
    var lc, lw, le := RunLocalsSteps(w.locals, req, res, log, env);
    Compose(code0, sent0, calls, lc, code2, sent2, res.statusCode, res.sent);
    calls := calls + lc;
    writes := lw;
    if le.Some? {
      final := le;
      return;
    }
    ghost var code3, sent3 := res.statusCode, res.sent;
    var hc, hfinal := RunHandlerAndTeardown(w, params, req, res, log, env);
    Compose(code0, sent0, calls, hc, code3, sent3, res.statusCode, res.sent);
    calls := calls + hc;
    final := hfinal;
  }

  /** One invocation of the wrapper on a request and a response. */
  method Invoke(w: Wrapped, params: seq<Value>, req: Request, res: Response, log: Log, env: Env)
    returns (calls: seq<Call>)
    requires ModuleInv(req, res, log)
    modifies req`locals, req`scratch, res`hasLocals, res`scratch, res`json, res`listeners, res`statusCode,
             res`slots, res`sent, res`decorations, res`headers,
             log`infos, log`handlerTags, log`traceModeNotices, log`warnings
    ensures ModuleInv(req, res, log) && Installed(res)
    ensures calls == ModulePlan(w, params).calls
    ensures res.sent == old(res.sent) + Sends(calls) + ReplySends(ModulePlan(w, params).final)
    ensures res.statusCode == FinalStatus(old(res.statusCode), ModulePlan(w, params))
    ensures req.locals == Some(ApplyWrites(old(req.locals).GetOr(map[]), ModulePlan(w, params).writes))
    ensures req.scratch.Some? && req.scratch.value.loggedRequestInfo
    ensures req.scratch.value.loggedResponseInfo == (old(req.scratch).Some? && old(req.scratch).value.loggedResponseInfo)
    ensures log.handlerTags == old(log.handlerTags)
                               + (if old(req.scratch).None? || !old(req.scratch).value.initLogging then [w.name] else [])
    ensures !old(Installed(res)) ==> res.json == ModuleHook(w.name, w.version, Native)
    ensures old(Installed(res)) ==> res.json == old(res.json)
    ensures res.listeners == old(res.listeners) + [ModuleFinish]
    ensures res.headers == old(res.headers) && log.warnings == old(log.warnings)
  {
    Prepare(w, req, res, log);
    calls := Run(w, params, req, res, log, env);
  }

  /** From the availability gate to the outer catch. */
  method Run(w: Wrapped, params: seq<Value>, req: Request, res: Response, log: Log, env: Env)
    returns (calls: seq<Call>)
    requires ModuleInv(req, res, log) && Installed(res) && req.locals.Some?
    modifies req`locals, res`statusCode, res`scratch, res`slots, res`sent, res`decorations, res`headers, log`warnings
    ensures ModuleInv(req, res, log) && Installed(res)
    ensures calls == ModulePlan(w, params).calls
    ensures res.sent == old(res.sent) + Sends(calls) + ReplySends(ModulePlan(w, params).final)
    ensures res.statusCode == FinalStatus(old(res.statusCode), ModulePlan(w, params))
    ensures req.locals == Some(ApplyWrites(old(req.locals).value, ModulePlan(w, params).writes))
    ensures res.headers == old(res.headers) && log.warnings == old(log.warnings)
  {
    var final: Option<Thrown>;
    if w.unavailable {
      calls := [];
      final := Some(Project(Unavailable));
      assert Sends(calls) == [] && res.sent + [] == res.sent;
    } else {
      var writes;
      calls, writes, final := RunPhases(w, params, req, res, log, env);
    }
    if final.Some? {
      Respond(final.value, req, res, log, env);
    } else {
      assert res.sent + [] == res.sent;
    }
  }

  /** The bodies a chain of wrappers sends, one invocation after another. */
  function ChainSends(ws: seq<Wrapped>, params: seq<Value>): seq<Value>
  {
    if ws == [] then []
    else
      var p := ModulePlan(ws[|ws| - 1], params);
      ChainSends(ws[..|ws| - 1], params) + Sends(p.calls) + ReplySends(p.final)
  }

  /** The status code after a chain of wrappers, starting from `code`. */
  function ChainStatus(code: int, ws: seq<Wrapped>, params: seq<Value>): int
  {
    if ws == [] then code else FinalStatus(ChainStatus(code, ws[..|ws| - 1], params), ModulePlan(ws[|ws| - 1], params))
  }

  /** Several wrapped handlers run, one after another, on one fresh request
      and one fresh framework response, and the response then finishes.
      Whatever the handlers do: the `{ req }` summary and the `{ res }`
      summary are each logged exactly once, in that order; the handler tag
      is set once, by the first wrapper; the decorator runs once if anything
      is sent and never otherwise, with the first wrapper's name and version;
      the response log reports the first body sent; and the framework's
      `json` is handed every body every invocation sends, unchanged and in
      order (the framework's refusal of a second body is not modelled). */
  method RunChain(ws: seq<Wrapped>, params: seq<Value>, data: RequestData, headers: map<string, string>, env: Env)
    returns (infos: seq<Info>, handlerTags: seq<Option<string>>, decorations: seq<Decoration>,
             sent: seq<Value>, status: int)
    requires |ws| > 0
    ensures sent == ChainSends(ws, params)
    ensures status == ChainStatus(200, ws, params)
    ensures handlerTags == [ws[0].name]
    ensures |decorations| == (if |sent| > 0 then 1 else 0)
    ensures |sent| > 0 ==> decorations[0] == Decoration(ws[0].name, ws[0].version)
    ensures infos == [RequestInfo(SummarizeRequest.SummarizeRequest(data)),
                      ResponseInfo(SummarizeResponse.SummarizeResponse(
                        headers, status, Undefined, map["body" := if |sent| > 0 then sent[0] else Undefined]))]
  {
    var req, res, log := Start(data, headers);
    InvokeAll(ws, params, req, res, log, env);
    infos := Finish(req, res, log);
    handlerTags, decorations, sent, status := log.handlerTags, res.decorations, res.sent, res.statusCode;
  }

  /** The `finish` event after a chain: the log gains the response summary
      with the first body sent, and nothing else. */
  method Finish(req: Request, res: Response, log: Log) returns (infos: seq<Info>)
    requires ModuleInv(req, res, log) && Installed(res) && |res.listeners| > 0
    requires req.scratch.Some? && req.scratch.value.loggedRequestInfo && !req.scratch.value.loggedResponseInfo
    modifies req`scratch, log`infos
    ensures infos == log.infos
    ensures infos == [RequestInfo(SummarizeRequest.SummarizeRequest(req.data)),
                      ResponseInfo(SummarizeResponse.SummarizeResponse(
                        res.headers, res.statusCode, res.statusMessage,
                        map["body" := if |res.sent| > 0 then res.sent[0] else Undefined]))]
    ensures |res.decorations| == (if |res.sent| > 0 then 1 else 0)
    ensures |res.sent| > 0 ==> res.decorations[0] == Decoration(res.json.handler, res.json.version)
  {
    FinishFacts(req, res, log);
    EmitFinish(req, res, log);
    infos := log.infos;
  }

  /** A fresh request, a fresh framework response that can set headers,
      and an empty log: the invariant holds and no wrapper has run. */
  method Start(data: RequestData, headers: map<string, string>) returns (req: Request, res: Response, log: Log)
    ensures fresh(req) && fresh(res) && fresh(log)
    ensures ModuleInv(req, res, log) && req.scratch.None? && !Installed(res)
    ensures req.data == data && res.headers == headers && res.statusCode == 200 && res.statusMessage == Undefined
    ensures log.infos == [] && log.handlerTags == []
  {
    req := new Request(data);
    res := new Response(headers, true, true);
    log := new Log();
  }

  /** What the invariant says once the request is logged and the response
      not yet: the log holds the request summary alone, the first listener
      is the newer wrapper's, and it would report the first body sent; the
      decorator ran once if anything was sent, with the hook's arguments. */
  lemma FinishFacts(req: Request, res: Response, log: Log)
    requires ModuleInv(req, res, log) && Installed(res) && |res.listeners| > 0
    requires req.scratch.Some? && req.scratch.value.loggedRequestInfo && !req.scratch.value.loggedResponseInfo
    ensures log.infos == [RequestInfo(SummarizeRequest.SummarizeRequest(req.data))]
    ensures res.listeners[0] == ModuleFinish
    ensures FinishBody(res.listeners[0], res) == if |res.sent| > 0 then res.sent[0] else Undefined
    ensures |res.decorations| == (if |res.sent| > 0 then 1 else 0)
    ensures |res.sent| > 0 ==> res.decorations[0] == Decoration(res.json.handler, res.json.version)
  {
  }

  /** The invocations of a chain, one after another, on a request and a
      response no wrapper has touched yet. */
  method InvokeAll(ws: seq<Wrapped>, params: seq<Value>, req: Request, res: Response, log: Log, env: Env)
    requires |ws| > 0 && ModuleInv(req, res, log) && req.scratch.None? && !Installed(res)
    modifies req`locals, req`scratch, res`hasLocals, res`scratch, res`json, res`listeners, res`statusCode,
             res`slots, res`sent, res`decorations, res`headers,
             log`infos, log`handlerTags, log`traceModeNotices, log`warnings
    ensures ModuleInv(req, res, log) && Installed(res)
    ensures res.json == ModuleHook(ws[0].name, ws[0].version, Native) && |res.listeners| > 0
    ensures req.scratch.Some? && req.scratch.value.loggedRequestInfo && !req.scratch.value.loggedResponseInfo
    ensures log.handlerTags == [ws[0].name]
    ensures res.sent == ChainSends(ws, params)
    ensures res.statusCode == ChainStatus(old(res.statusCode), ws, params)
    ensures res.headers == old(res.headers)
  {
    ghost var code0 := res.statusCode;
    var i := 0;
    while i < |ws|
      invariant 0 <= i <= |ws|
      invariant ModuleInv(req, res, log)
      invariant i == 0 ==> req.scratch.None? && !Installed(res) && res.statusCode == code0
      invariant i > 0 ==>
        Installed(res) && res.json == ModuleHook(ws[0].name, ws[0].version, Native)
        && req.scratch.Some? && req.scratch.value.loggedRequestInfo && !req.scratch.value.loggedResponseInfo
        && log.handlerTags == [ws[0].name] && |res.listeners| > 0
        && res.statusCode == ChainStatus(code0, ws[..i], params)
      invariant res.sent == ChainSends(ws[..i], params)
      invariant res.headers == old(res.headers)
    {
      assert ws[..i + 1][..i] == ws[..i] && ws[..i + 1][i] == ws[i];
      var _ := Invoke(ws[i], params, req, res, log, env);
      i := i + 1;
    }
    assert ws[..i] == ws;
  }
}
