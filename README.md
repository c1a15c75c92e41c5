# knowdev-express request-handler wrappers, modelled in Dafny

This project models the core of `@knowdev/express`: the two `projectHandler` wrappers that turn a
user's Express handler into a request pipeline. It also models the utilities the wrappers use.

- **Newer wrapper** (`projectHandler.module.js`). An asynchronous pipeline. It creates per-request
  and per-response scratch records, which make the request log and the response log idempotent.
  It installs a `res.json` hook once; the hook decorates the response and captures the first body
  sent. It registers a `finish` listener. It then runs, in order:
  - an availability gate;
  - `validate` and `setup`, in array order, where the first error is terminal;
  - `locals`, in key order;
  - the handler, awaited;
  - every `teardown` function, each error kept;
  - a final decision: none, one, or a multi-error;
  - the outer catch, which answers with the error's own status and JSON:API body.
- **Older wrapper** (`projectHandler.function.js`). It is synchronous. Every invocation wraps the
  current `res.json` in a fresh hook that keeps the captured body in its own closure variable. It
  also registers its own `finish` listener, which reads that variable. The handler is called
  without `await`.
- **`httpRoute(statusCode, context)`**. A ready-made handler, wrapped by the older wrapper, that
  answers with a fixed status and `{ res: { statusCode, statusMessage } }`.
- **`decorateResponse`**. Sets `X-Powered-By` and the `X-Project-*` headers inside a try/catch.
- **`getEnvironmentTags`, `summarizeRequest`, the two `summarizeResponse`s and the JSON:API error
  schema.**

How the model is built:

- A request, a response and the logger are classes whose fields the methods update.
- `req.locals._projectHandler` and `res.locals._projectHandler` are scratch records.
- `res.json` is a chain of hooks ending in the framework's own serialiser.
- The bodies the serialiser receives, the decorator calls, and the log calls are recorded as
  sequences.
- Each wrapper is proved against a specification function of its options: `ModulePlan` for the
  newer wrapper and `LegacyPlan` for the older one. The specification gives the calls made, the
  locals written and the error that reaches the outer catch. The methods that run the steps in
  place are proved to follow it.
- User functions (handler, validators, setup, teardown, locals producers) are abstract actions. An
  action has an optional `res.status(code)`, an optional `res.json(body)`, and an outcome: it
  returns, throws synchronously, or returns a rejecting promise.
- The errors library is not part of this model. Each project error is a variant with a fixed HTTP
  status (section 15 of RFC 9110) and a JSON:API-style body.
- The environment (`PROJECT_*`, `npm_package_version`) and the current-invocation id are a
  parameter `Env`.

Where the specification and the code disagree, the model follows the code:

- `summarizeRequest` copies a Buffer body unchanged; it does not decode it to text.
  `SummarizeRequest.SummaryRoundTrip` proves the body comes back unchanged.

## Model

| member | source | states |
|---|---|---|
| JsonApiError.IsErrorBody | src/etc/jsonApiError.schema.js:3-20 | the schema: an object whose required `errors` is an array of objects, each with a numeric `status`, a string `title` and, when present, a string `detail` |
| JsonApiError.RenderIsErrorBody | src/etc/jsonApiError.schema.js:3-20 | every rendered `{ errors: [...] }` body satisfies the schema |
| JsonApiError.ParseRender | src/etc/jsonApiError.schema.js:3-20 | reading a rendered body back gives exactly the items it was rendered from |
| JsonApiError.SchemaIffParses | src/etc/jsonApiError.schema.js:3-20 | a value satisfies the schema if and only if it parses into error items |
| Errors.Classify | src/modules/projectHandler/projectHandler.module.js:198-206 | a caught project error joins the runtime errors as it is; anything else, `null` and `undefined` included, becomes a generic `UnhandledError` (the intended reading; see Findings) |
| Errors.CatchAsWritten | src/modules/projectHandler/projectHandler.module.js:198-206 | the inner catch as written: it classifies exactly when the caught value is not `null` or `undefined`; for those the property read throws out of the catch |
| Errors.ErrorReply | src/modules/projectHandler/projectHandler.module.js:243-256 | the outer catch answers with the classified error's status and JSON; the body satisfies the schema; a non-project error is answered with 500, which for `null` and `undefined` is the intended reading (see Findings) |
| Errors.OuterCatchAsWritten | src/modules/projectHandler/projectHandler.module.js:243-256 | the outer catch as written: no reply exactly for `null` and `undefined`, and the same reply as `ErrorReply` for every other value |
| Errors.Decide | src/modules/projectHandler/projectHandler.module.js:238-242 | no error means no throw (both directions); one error is thrown as itself; two or more become one multi-error over all of them |
| Errors.FirstItemCarriesStatus | src/modules/projectHandler/projectHandler.module.js:248 | a proper error's body is non-empty, and its first entry carries the error's own status |
| Errors.ReplyStatusMirrorsBody | src/modules/projectHandler/projectHandler.module.js:243-256 | for any thrown value whose project error is proper (a multi-error never wraps nothing), the response status equals `errors[0].status` in the schema-valid body |
| Errors.DecideKeepsEveryError | src/modules/projectHandler/projectHandler.module.js:238-242 | the decided error lists the entries of every runtime error, in order, and has the first one's status |
| Errors.DecideProper | src/modules/projectHandler/projectHandler.module.js:238-242 | the decision over proper errors is proper (a multi-error never wraps nothing) |
| Errors.AllItemsAppend | src/modules/projectHandler/projectHandler.module.js:239 | a multi-error's entries over two lists are the entries of the first, then those of the second |
| SummarizeRequest.SummarizeRequest | src/util/summarizeRequest.util.js:6-15 | the summary has exactly the keys `baseUrl`, `body`, `headers`, `method`, `query`, `url`, and the body is the request's own |
| SummarizeRequest.SummaryRoundTrip | src/util/summarizeRequest.util.js:6-15 | every request field, the body included, can be read back unchanged from the summary |
| SummarizeRequest.SummaryDeterminesRequest | src/util/summarizeRequest.util.js:6-15 | two requests have equal summaries if and only if they are equal |
| SummarizeResponse.SummarizeResponse | src/util/summarizeResponse.util.js:6-13 | the keys are `headers`, `statusCode`, `statusMessage` plus the extras' keys; extras win over the base fields; base fields come from the response where no extra overrides them |
| SummarizeResponse.BodyExtraOnlyAddsBody | src/util/summarizeResponse.util.js:6-13 | passing `{ body }` adds exactly `body` and leaves the base summary unchanged |
| LegacySummarizeResponse.SummarizeResponse | src/functions/summarizeResponse.function.js:6-15 | exactly the five keys `body`, `taco`, `locals`, `statusCode`, `statusMessage`, with `taco` fixed to "hi" |
| LegacySummarizeResponse.LegacySummaryRoundTrip | src/functions/summarizeResponse.function.js:6-15 | body, locals, status code and status message are copied unchanged |
| LogUtil.GetEnvironmentTags | src/util/log.util.js:13-49 | each tag is present if and only if its source is truthy, with its value; `shortInvoke` is present with `invoke` and is its first 8 characters (all of it when shorter); `version` prefers `npm_package_version` over `PROJECT_VERSION`; no other keys |
| DecorateResponse.ProjectHeaders | src/util/decorateResponse.util.js:57-84 | each `X-Project-*` header is planned if and only if its source is truthy, with that value; nothing else is planned |
| DecorateResponse.Decorate | src/util/decorateResponse.util.js:27-94 | a non-object response gets only the warning; otherwise the headers become powered-by plus the planned headers; a throw from `get`/`set` or `setHeader` keeps only the updates before it and logs the caught-error warning |
| DecorateResponse.SetProjectHeaders | src/util/decorateResponse.util.js:57-84 | the five guarded `setHeader` calls, run in place, leave the old headers updated by exactly the planned ones |
| DecorateResponse.PoweredByRule | src/util/decorateResponse.util.js:50-55 | powered-by becomes "knowdev.studio" exactly when it was unset, empty or "Express"; any other value is kept |
| DecorateResponse.ProjectHeaderRule | src/util/decorateResponse.util.js:57-84 | with a working response, every planned project header has its planned value, and an unplanned one is untouched |
| DecorateResponse.OtherHeadersUnchanged | src/util/decorateResponse.util.js:27-94 | no header outside powered-by and the five project headers is ever touched |
| DecorateResponse.DecorateIdempotent | src/util/decorateResponse.util.js:27-94 | with fixed inputs, decorating twice leaves the headers as decorating once |
| ResponseHooks.ReadyWithMoreSlots | src/functions/projectHandler.function.js:71-82 | a ready hook chain stays ready when more closure variables exist |
| ResponseHooks.Dispatch | src/modules/projectHandler/projectHandler.module.js:109-118 | `res.json(body)` through any hook chain: the serialiser receives the body exactly once; the first hook to find the response undecorated marks it, captures the body (in the scratch record for the newer hook, in its closure variable for the older one) and decorates; an already decorated response is only forwarded |
| ResponseHooks.EmitFinish | src/modules/projectHandler/projectHandler.module.js:122-132 | all `finish` listeners run in order; the `{ res }` summary is logged at most once, by the first listener, with that listener's body |
| ProjectHandlerModule.ProjectHandler | src/modules/projectHandler/projectHandler.module.js:34-56 | an explicit truthy name wins, else a non-empty `handler.name`; `unavailable` and `version` default to `PROJECT_UNAVAILABLE` and `PROJECT_VERSION` |
| ProjectHandlerModule.ResolvedNameIsStable | src/modules/projectHandler/projectHandler.module.js:51-56 | wrapping again with the resolved name resolves to the same name |
| ProjectHandlerModule.RunAborting | src/modules/projectHandler/projectHandler.module.js:149-174 | specification of validate and setup; see the lemma rows (`AbortingAllPass`, `AbortingStopsAtFirst`, `AbortingPhase`) |
| ProjectHandlerModule.RunLocals | src/modules/projectHandler/projectHandler.module.js:177-189 | specification of locals; see the lemma rows (`LocalsInKeyOrder`, `LocalsPhase`) |
| ProjectHandlerModule.ModulePlan | src/modules/projectHandler/projectHandler.module.js:140-242 | specification of one invocation; see the lemma rows (`PlanShape`, `SkippedStepsNeverRun`, `HandlerCalledOnce`, `FinalDecision`) |
| ProjectHandlerModule.FnCalls | src/modules/projectHandler/projectHandler.module.js:152-158 | the calls of the function entries, in order, all in their phase, with no extra arguments |
| ProjectHandlerModule.AbortingAllPass | src/modules/projectHandler/projectHandler.module.js:149-174 | when no validator or setup function fails, each function entry is called once, in order, and non-functions are skipped |
| ProjectHandlerModule.AbortingStopsAtFirst | src/modules/projectHandler/projectHandler.module.js:149-174 | the first failing entry is the last one called, and its error ends the array |
| ProjectHandlerModule.AbortingPhase | src/modules/projectHandler/projectHandler.module.js:149-174 | every validate or setup call belongs to its phase and gets only (req, res) |
| ProjectHandlerModule.LocalsInKeyOrder | src/modules/projectHandler/projectHandler.module.js:177-189 | when every producer returns, each key is written once, in key order, with the producer's result or the literal value |
| ProjectHandlerModule.LocalsPhase | src/modules/projectHandler/projectHandler.module.js:177-189 | every call `locals` makes is a producer call with only (req, res) |
| ProjectHandlerModule.RunTeardown | src/modules/projectHandler/projectHandler.module.js:210-232 | teardown keeps at most one error per call |
| ProjectHandlerModule.TeardownRunsEvery | src/modules/projectHandler/projectHandler.module.js:210-232 | every teardown function runs, in order, whatever the others do, when a `null` or `undefined` error is read as unhandled (as written, see `NullishTeardownStopsLoop`) |
| ProjectHandlerModule.TeardownErrorsIff | src/modules/projectHandler/projectHandler.module.js:210-232 | teardown adds no error if and only if no teardown function fails |
| ProjectHandlerModule.UnavailableRunsNothing | src/modules/projectHandler/projectHandler.module.js:140-146 | an unavailable wrapper calls nothing, writes no locals, and answers with 503 and the unavailable error's body |
| ProjectHandlerModule.SkippedStepsNeverRun | src/modules/projectHandler/projectHandler.module.js:149-189 | a failure in validate, setup or locals means the handler and teardown never run; a validate failure means only validators ran; a setup failure means no producer ran |
| ProjectHandlerModule.HandlerCalledOnce | src/modules/projectHandler/projectHandler.module.js:191-232 | past locals, the handler is called exactly once, with the request's extra arguments, followed by exactly the teardown calls |
| ProjectHandlerModule.FinalDecision | src/modules/projectHandler/projectHandler.module.js:191-242 | nothing reaches the outer catch if and only if the handler and every teardown function succeed; otherwise the reply has the first runtime error's status and lists every runtime error, in order |
| ProjectHandlerModule.RepliesAreErrorBodies | src/modules/projectHandler/projectHandler.module.js:243-256 | whatever reaches the outer catch is answered with a schema-valid body, and a non-project error with 500; as written, `null` and `undefined` are not answered (see `NullishBeforeHandlerEscapes`) |
| ProjectHandlerModule.PlanShape | src/modules/projectHandler/projectHandler.module.js:140-242 | the plan branch by branch: stop at validate, at setup, at locals, or run the handler and teardown and decide |
| ProjectHandlerModule.AsWrittenAgrees | src/modules/projectHandler/projectHandler.module.js:140-256 | when no user function fails with `null` or `undefined`, the run with the catch blocks as written is exactly the planned run, answered by the outer catch |
| ProjectHandlerModule.NullishBeforeHandlerEscapes | src/modules/projectHandler/projectHandler.module.js:243-256 | as written, a validate, setup or locals failure with `null` or `undefined` escapes the outer catch and nothing is sent, where the intended reading answers 500 with the unhandled error's body |
| ProjectHandlerModule.NullishHandlerSkipsTeardown | src/modules/projectHandler/projectHandler.module.js:193-232 | as written, a handler failing with `null` or `undefined` makes its catch throw: no teardown function runs and the reply is the unhandled 500, where the intended run calls every teardown function |
| ProjectHandlerModule.NullishTeardownStopsLoop | src/modules/projectHandler/projectHandler.module.js:210-232 | as written, the first teardown function failing with `null` or `undefined` is the last one called, and the loop is left |
| ProjectHandlerModule.RejectedValidatorGetsNoReply | src/modules/projectHandler/projectHandler.module.js:149-160 | a validator whose promise rejects with no reason: as written nothing is sent; the intended reading answers 500 |
| ProjectHandlerModule.Perform | src/modules/projectHandler/projectHandler.module.js:196 | a user function's `res.status` and `res.json` keep the invariant, set the status and send the body through the hook |
| ProjectHandlerModule.PerformCall | src/modules/projectHandler/projectHandler.module.js:155 | one more call keeps the response's status and bodies equal to what the calls so far describe |
| ProjectHandlerModule.AbortingStep | src/modules/projectHandler/projectHandler.module.js:152-158 | one validate or setup entry on the specification side: skip, continue, or stop with its error |
| ProjectHandlerModule.RunAbortingSteps | src/modules/projectHandler/projectHandler.module.js:149-174 | validate or setup run in place make exactly the specified calls and end with the specified error; the response gets those calls' status and bodies |
| ProjectHandlerModule.ApplyWritesSnoc | src/modules/projectHandler/projectHandler.module.js:184-186 | one more locals write updates that one key |
| ProjectHandlerModule.LocalsStep | src/modules/projectHandler/projectHandler.module.js:181-187 | one locals key on the specification side: a failing producer stops before writing; otherwise the key is written |
| ProjectHandlerModule.LocalsKey | src/modules/projectHandler/projectHandler.module.js:181-187 | one locals key run in place, keeping `req.locals` equal to the writes so far |
| ProjectHandlerModule.RunLocalsSteps | src/modules/projectHandler/projectHandler.module.js:177-189 | locals run in place make the specified calls and writes, and `req.locals` holds exactly those writes |
| ProjectHandlerModule.TeardownStep | src/modules/projectHandler/projectHandler.module.js:213-230 | one teardown entry on the specification side: skipped, or called with its error classified and kept |
| ProjectHandlerModule.RunTeardownSteps | src/modules/projectHandler/projectHandler.module.js:210-232 | teardown run in place makes the specified calls and keeps the specified errors, in order |
| ProjectHandlerModule.Prepare | src/modules/projectHandler/projectHandler.module.js:68-132 | scratch records are created only when absent; the handler tag and the `{ req }` log happen once per request; the hook is installed once per response; one `finish` listener is added per invocation |
| ProjectHandlerModule.CreateScratch | src/modules/projectHandler/projectHandler.module.js:68-74 | `req.locals`, `res.locals` and their scratch records are created only when absent |
| ProjectHandlerModule.CreateResponseScratch | src/modules/projectHandler/projectHandler.module.js:73-74 | `res.locals` and its scratch record are created only when absent |
| ProjectHandlerModule.InitLogging | src/modules/projectHandler/projectHandler.module.js:79-86 | the handler tag and trace notice are emitted only on the first invocation for a request |
| ProjectHandlerModule.LogRequest | src/modules/projectHandler/projectHandler.module.js:95-98 | the `{ req }` summary is logged only while `loggedRequestInfo` is unset |
| ProjectHandlerModule.InstallHook | src/modules/projectHandler/projectHandler.module.js:106-119 | the hook is installed only while no original `json` is saved, and it saves the framework's own |
| ProjectHandlerModule.Respond | src/modules/projectHandler/projectHandler.module.js:243-256 | the outer catch sets the reply's status and sends its body |
| ProjectHandlerModule.RunHandlerAndTeardown | src/modules/projectHandler/projectHandler.module.js:191-242 | the handler call and then every teardown call; the error thrown is the decision over the classified handler error and the teardown errors |
| ProjectHandlerModule.DecideFinal | src/modules/projectHandler/projectHandler.module.js:238-242 | the branch on the number of runtime errors throws exactly what the decision gives |
| ProjectHandlerModule.RunPhases | src/modules/projectHandler/projectHandler.module.js:149-242 | everything after the gate, run in place, follows the plan: its calls, its locals writes and its final error |
| ProjectHandlerModule.Run | src/modules/projectHandler/projectHandler.module.js:140-256 | the gate to the outer catch: the response gets the plan's bodies followed by the reply, and the plan's final status |
| ProjectHandlerModule.Invoke | src/modules/projectHandler/projectHandler.module.js:63-257 | one invocation keeps the invariant and does exactly what the plan says to the response, `req.locals`, the log and the listeners |
| ProjectHandlerModule.RunChain | src/modules/projectHandler/__tests__/projectHandler-express.function.spec.js:100-139 | wrappers chained on one request, followed by `finish`: `{ req }` and `{ res }` are each logged once, in that order; the tag is set once; the decorator runs once if and only if something is sent, with the first wrapper's name and version; the log reports the first body sent; the framework's `json` is handed every body, in order |
| ProjectHandlerModule.Finish | src/modules/projectHandler/projectHandler.module.js:122-132 | after the request is logged, `finish` adds the `{ res }` summary with the first body sent, and nothing else |
| ProjectHandlerModule.Start | src/modules/projectHandler/projectHandler.module.js:63 | a fresh request and response satisfy the invariant, with no wrapper installed |
| ProjectHandlerModule.FinishFacts | src/modules/projectHandler/projectHandler.module.js:109-132 | between invocations, the log holds only the request summary, and the listener would report the first body sent |
| ProjectHandlerModule.InvokeAll | src/modules/projectHandler/projectHandler.module.js:63-257 | a chain of invocations: the first wrapper's hook stays the only hook, and the response gets the chain's bodies and status |
| ProjectHandlerFunction.LegacyProjectHandler | src/functions/projectHandler.function.js:22-29 | the name is taken only from the options, never from `handler.name`; `unavailable` and `version` default to the environment |
| ProjectHandlerFunction.LegacyUnavailableRunsNothing | src/functions/projectHandler.function.js:99-105 | an unavailable wrapper never calls its handler and answers with 503 and the unavailable error's body |
| ProjectHandlerFunction.LegacyCatchesSynchronousThrow | src/functions/projectHandler.function.js:107-134 | a synchronous throw is answered after the handler's own sends: with the error's own status and JSON for a project error, with 500 otherwise; the code as written sends the same bodies for every value but `null` and `undefined` |
| ProjectHandlerFunction.LegacyNullishThrowEscapes | src/functions/projectHandler.function.js:121-134 | as written, a synchronous `null` or `undefined` throw gets no reply from the wrapper, only the handler's own sends; the intended reading adds the unhandled 500 body |
| ProjectHandlerFunction.RejectionEscapesLegacyOnly | src/functions/projectHandler.function.js:109 | a rejected promise reaches no catch in the older wrapper; the newer wrapper, with no other option set, answers it with the classified error's body, both as planned and with its catch blocks as written (a rejection with no reason is answered as unhandled through the `TypeError`) |
| ProjectHandlerFunction.LegacyPlan | src/functions/projectHandler.function.js:98-134 | specification of one invocation; see the lemma rows (`LegacyUnavailableRunsNothing`, `LegacyCatchesSynchronousThrow`, `HandlerBodies`) |
| ProjectHandlerFunction.HandlerBodies | src/functions/projectHandler.function.js:107-134 | past the gate, the handler is called once; the response gets its own sends, then the reply if it threw, and the matching status |
| ProjectHandlerFunction.Send | src/functions/projectHandler.function.js:73-82 | `res.json(body)` through the older hook: the first send captures the body in the outermost hook's closure variable and decorates with `{ name, version }`; later sends only forward |
| ProjectHandlerFunction.Perform | src/functions/projectHandler.function.js:109 | the handler's `res.status` and `res.json`, run synchronously |
| ProjectHandlerFunction.Run | src/functions/projectHandler.function.js:98-134 | the gate to the end of the catch: the response gets the plan's bodies and status; the first body lands in the outermost hook's closure variable |
| ProjectHandlerFunction.RunHandler | src/functions/projectHandler.function.js:107-134 | the handler, not awaited, and the catch for a synchronous throw |
| ProjectHandlerFunction.Reply | src/functions/projectHandler.function.js:121-134 | the catch: the reply's status, and its body sent through the hook |
| ProjectHandlerFunction.Prepare | src/functions/projectHandler.function.js:42-91 | scratch records created only when absent; the trace notice and `{ req }` log happen once per request; every invocation wraps the current `json` in a new hook with a new closure variable and adds its own listener |
| ProjectHandlerFunction.CreateScratch | src/functions/projectHandler.function.js:42-48 | `req.locals`, `res.locals` and their scratch records are created only when absent |
| ProjectHandlerFunction.CreateResponseScratch | src/functions/projectHandler.function.js:46-48 | `res.locals` and its scratch record are created only when absent |
| ProjectHandlerFunction.LogRequest | src/functions/projectHandler.function.js:50-61 | the trace notice and the `{ req }` summary happen only while their flags are unset |
| ProjectHandlerFunction.Invoke | src/functions/projectHandler.function.js:41-135 | one invocation keeps the invariant; the response gets the plan's bodies and status; the new hook's closure variable gets the first body only if the response was undecorated |
| ProjectHandlerFunction.Start | src/functions/projectHandler.function.js:41 | a fresh request and response satisfy the invariant, with no hook installed |
| ProjectHandlerFunction.StartAndInvoke | src/functions/projectHandler.function.js:41-135 | one invocation on a fresh request: the request is logged once; the response gets the bodies; the listener's closure variable holds the first body |
| ProjectHandlerFunction.Finish | src/functions/projectHandler.function.js:85-91 | `finish` logs the `{ res }` summary once, with the first listener's own closure variable as the body |
| ProjectHandlerFunction.ServeOnce | src/functions/__tests__/projectHandler-express.function.spec.js:38-54 | one wrapper that sends: the framework receives its bodies; the decorator leaves the older hook's headers; `{ req }` and `{ res }` are logged once each, the latter with the first body |
| ProjectHandlerFunction.ChainedBodyLost | src/functions/projectHandler.function.js:69-91 | two chained wrappers where only the second sends: the framework receives the body, but the response log reports it as undefined |
| ProjectHandlerFunction.InvokeBoth | src/functions/__tests__/projectHandler-express.function.spec.js:55-78 | two chained invocations: the body lands in the second hook's closure variable, not in the first one's |
| ProjectHandlerFunction.HandlerHeaderNeverSet | src/functions/projectHandler.function.js:78 | a named older wrapper decorates with no handler, so `X-Project-Handler` is never set |
| ProjectHandlerFunction.NamedDecorationSetsHandlerHeader | src/modules/projectHandler/projectHandler.module.js:114 | passing `{ handler: name, version }` makes the decorator set `X-Project-Handler` to the name |
| HttpRoute.StatusMessage | src/functions/httpRoute.function.js:17-33 | a message exists if and only if the code is one of the twelve in the table, and every message is non-empty |
| HttpRoute.RouteBodyNamesStatus | src/functions/httpRoute.function.js:14-33 | the body is `{ res: { statusCode, statusMessage } }` with the configured code; it carries the table's message if and only if the table has one |
| HttpRoute.RouteReplies | src/functions/httpRoute.function.js:11-46 | the route is unavailable exactly as its context (or the environment's default) says; an available route sends exactly its body, once, with the configured status (200 by default); an unavailable one sends the unavailable error |
| HttpRoute.ServeRoute | src/functions/httpRoute.function.js:11-46 | on a fresh request: the configured status; the route body sent once; powered-by set to "knowdev.studio" unless another value was there; the headers are the decorator's with the context's version (the environment's without one), so a truthy version is the `X-Project-Version` header; both summaries logged |
| Steps.SendsAppend | src/modules/projectHandler/projectHandler.module.js:152-158 | the bodies of two runs of calls are the first run's, then the second's |
| Steps.LastStatusAppend | src/modules/projectHandler/projectHandler.module.js:152-158 | the status after two runs of calls is the second run's, starting from the first run's |
| Steps.Snoc | src/modules/projectHandler/projectHandler.module.js:155 | one more call appends its body, if any, and sets its status, if any |

## Left out

- Logging other than the modelled calls. Trace, debug and fatal messages are not recorded, and
  neither are the pipeline's own warnings: the unavailable warning, the skipped-non-function
  warnings, and httpRoute's missing-message warning. The `{ req }`/`{ res }` info calls, the
  handler tag, the trace-mode notice and the decorator's warnings are recorded.
- Logger construction in `log.util.js` (I/O); only `getEnvironmentTags` is modelled.
- The newer wrapper's own decorator module (`./decorateResponse.util` in its folder) is not part
  of this model. Its calls are recorded with their arguments, not interpreted. The older wrapper's
  decorator is the one in `src/util`, and its header effects are modelled.
- The errors library is not part of this model:
  - statuses follow the error names;
  - titles are placeholders;
  - a `MultiError` is given the status of its first error (500 when empty).
- The framework's `json` is a recorder that accepts every body. In Express a body sent after the
  first makes `res.json` throw (`ERR_HTTP_HEADERS_SENT`, from `setHeader` in `res.send`): the
  newer wrapper then rejects (a reply after a send, or a second sending wrapper in a chain, throws
  out of the catch), and the older one throws. The model records such a body as delivered and its
  reply's status as set, in `ProjectHandlerModule.Run`, `Invoke`, `RunChain` and
  `ProjectHandlerFunction.HandlerBodies`, `LegacyCatchesSynchronousThrow`.
- The reason phrase that Node sets at `writeHead` is not modelled: `res.statusMessage` stays
  undefined, so every finish-time `{ res }` summary in the contracts (`RunChain`, `ServeOnce`,
  `StartAndInvoke`, `ChainedBodyLost`, `HttpRoute.ServeRoute`) carries `statusMessage: undefined`
  where the source would log the phrase for the status, such as "OK".
- Express itself. `next()` nesting of chained handlers is modelled as sequential invocations on
  one request and one response. `res.status`, `res.getHeaders` and the serialiser are fields.
  Only responses whose `json` is the framework's own, or a chain of the wrappers' hooks, are
  modelled.
- User functions are abstract actions: at most one `res.status`, then at most one `res.json`,
  then an outcome. A handler that calls `res.json` twice, or calls `res.json` before
  `res.status`, cannot be expressed: each plan makes exactly one handler call.
- `req.locals` and its scratch key are modelled as two independent optional fields, so a
  user-supplied local named `_projectHandler` is not modelled.
- JavaScript numbers are modelled as integers. httpRoute's `statusCode` is an integer, so a
  non-numeric code is not modelled.
- `envBoolean`'s parsing of `PROJECT_UNAVAILABLE` is not modelled; the environment gives the
  parsed boolean.
- ErrorReply: states the intended outer catch, which answers `null` and `undefined` with 500. As
  written the property read throws and nothing is sent; `Errors.OuterCatchAsWritten` and the
  Findings table give that behaviour.
- RepliesAreErrorBodies: holds for the intended reading. As written a `null` or `undefined`
  failure before the handler escapes the outer catch (`NullishBeforeHandlerEscapes`).
- TeardownRunsEvery: holds for the intended reading. As written a teardown function failing with
  `null` or `undefined` stops the loop and drops the collected errors (`NullishTeardownStopsLoop`),
  and a handler failing so skips teardown (`NullishHandlerSkipsTeardown`).
- LegacyCatchesSynchronousThrow: its 500 for a non-project error is the intended reading for
  `null` and `undefined`; as written they escape the wrapper (`LegacyNullishThrowEscapes`).
- RejectionEscapesLegacyOnly: the newer wrapper's reply is stated for both readings, but its plan's
  final error is the intended one; as written a rejection with no reason reaches the outer catch
  as a `TypeError`.
- The imperative run (`ProjectHandlerModule.Invoke`, `ProjectHandlerFunction.Invoke` and the
  methods they call) follows the intended reading for `null` and `undefined`; the catch blocks as
  written are modelled only as specification functions (`ModulePlanAsWritten`,
  `LegacyEndingAsWritten`).
- `DecorateResponse.Decorate` merges the availability of `res.get` and `res.set` into one flag. A
  response with `get` but no `set` and a powered-by value other than "Express" goes on to the
  `setHeader` calls in the source; the model treats it as throwing before any header is set.
- Header names are exact keys in the model's header table, while `res.get` and `setHeader` are
  case-insensitive. An existing `x-powered-by: Express` is not treated as replaceable, and
  `OtherHeadersUnchanged` does not speak about differently cased copies of the managed headers.
- The `Array.isArray` guards on `validate`, `setup` and `teardown` in the newer wrapper, which
  ignore a non-array option, cannot be expressed: the options are sequences of entries.
- `getEnvironmentTags` takes the first 8 characters of the invocation id as Dafny characters;
  `invoke.slice(0, 8)` counts UTF-16 code units, which differ only outside the Basic
  Multilingual Plane.
- ReplyStatusMirrorsBody: it excludes a thrown project error that is not proper, that is a
  user-thrown `MultiError` over no errors or one nesting such an empty `MultiError`. The model
  answers that with its own status and `errors: []`, so there is no `errors[0]`; that error's JSON
  comes from the errors library, which is not part of this model.
- Chains that mix older and newer wrappers on one response are covered by `ResponseHooks.Dispatch`
  only. The invariants of both `Invoke` methods assume that one kind of wrapper touched the
  response, so the newer wrapper saving an older hook as `originalJson` is not modelled end to end.
- The asynchronous timing of the `finish` event is not modelled. It fires once, after the
  invocations, as the Express tests observe.

## Findings

| source | as written | input that shows it | evidently intended | confidence | as-written member | corrected member |
|---|---|---|---|---|---|---|
| src/functions/projectHandler.function.js:69-91 | each invocation keeps the captured body in its own closure variable, and the `finish` listener that logs is the first one registered | two chained older wrappers where only the second calls `res.json(body)`: the client gets `body`, but the `{ res }` log reports `body: undefined` | the response log reports the body that was sent, as the newer wrapper does with its shared per-response record | not executed | ProjectHandlerFunction.ChainedBodyLost | ProjectHandlerModule.RunChain |
| src/functions/projectHandler.function.js:78 | the hook calls `decorateResponse(res, { name, version })`, but the decorator reads `handler` and `version` | any named older wrapper that sends a body: no `X-Project-Handler` header is set | pass `{ handler: name, version }`, as the newer wrapper does, so the handler header carries the name | not executed | ProjectHandlerFunction.HandlerHeaderNeverSet | ProjectHandlerFunction.NamedDecorationSetsHandlerHeader |
| src/modules/projectHandler/projectHandler.module.js:198-256 | the catch blocks read `error.isProjectError`, which throws a `TypeError` when the caught value is `null` or `undefined` | a validator whose promise rejects with no reason (`Promise.reject()`): the wrapper's promise rejects and nothing is sent; a handler that does so skips every teardown function; a teardown function that does so skips the rest | every non-project value, `null` and `undefined` included, is answered as unhandled and teardown still runs (`error?.isProjectError`) | not executed | ProjectHandlerModule.NullishBeforeHandlerEscapes | ProjectHandlerModule.RepliesAreErrorBodies |
| src/functions/projectHandler.function.js:121-134 | the catch reads `error.isProjectError`, which throws a `TypeError` for a caught `null` or `undefined` | a handler that runs `throw undefined`: the wrapper itself throws and sends no reply | answer it as unhandled, with 500 | not executed | ProjectHandlerFunction.LegacyNullishThrowEscapes | ProjectHandlerFunction.LegacyCatchesSynchronousThrow |
