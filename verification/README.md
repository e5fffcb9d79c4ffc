# fx-logr event logger, modelled in Dafny

fx-logr adapts the lifecycle events of the fx dependency-injection framework
to a logr structured logger. `LogrLogger.LogEvent` in `logr.go` is a total
dispatcher: it takes one event (a hook starting or finishing, a value being
supplied, provided, replaced or decorated, a function being invoked, the
application stopping, rolling back or starting, a custom logger being
initialised) and makes an ordered sequence of calls on the logr sink. Each call
is an informational call at the configured log level or an error call at the
configured error level (the level is what the logger passes to `Logger.V`),
with a fixed message, an ordered key/value field list
and, for error calls, the event's error.

The model is functional:

- `FxEvent.Event` has one constructor per event type of the type switch, with
  the fields the logger reads; errors are opaque `Option<Error>` tokens.
- `FxLogr.LogrLogger` is the level configuration; `UseLogLevel`,
  `UseErrorLevel` and `WithLogr` build it.
- `FxLogr.LogEvent(l, ev)` returns the sequence of `LogCall`s the logger makes,
  following the branches of the Go switch one for one.
- `LogTable.Table` is an independent, row-per-event description that composes
  the optional `module` and `private` fields and the optional trailing failure;
  `LogTable.LogEventMatchesTable` proves it equal to `LogEvent` for every event
  and configuration. The remaining lemmas (modules `LogEventProperties`,
  `FieldOrder`, `CallCounts`, `Levels`) state the promised properties.
- `LoggerExamples` restates sample events of `logr_test.go` and the calls they
  produce under the default logger.

How many calls an event makes depends on the event. Provided, Replaced and
Decorated make one call per output type, plus one for an error (logr.go:113-202).
Stopped, RolledBack and Invoked without an error make no call
(logr.go:215-244). A per-type event with no output types and no error makes
none either.

## Model

| member | source | states |
|---|---|---|
| FxLogr.WithLogr | logr.go:262-265 | a freshly wired logger has both the log level and the error level at 0, the values it passes to `Logger.V` |
| FxLogr.UseLogLevel | logr.go:33-36 | sets the informational level to the given value and keeps the error level |
| FxLogr.UseErrorLevel | logr.go:38-41 | sets the error level to the given value and keeps the informational level |
| FxLogr.EachType | logr.go:115-130 | the loop over output types makes exactly one informational call per type, in list order, each with the shared fields around that type's `type` field |
| FxLogr.ErrorIfAny | logr.go:131-135 | the trailing failure is at most one call; there is one exactly when the error is non-nil, and it forwards that error with the given message and fields at the error level |
| FxLogr.LogEvent | logr.go:43-259 | every informational call carries the log level, every error call the error level, and only the last call of an event can be an error call |
| Strings.UpperChar | logr.go:234 | a lower-case ASCII letter becomes its upper-case letter, every other character is kept, and the result is never lower-case |
| Strings.ToUpper | logr.go:234 | upper-casing keeps the length, maps each character by `UpperChar` and leaves no lower-case ASCII letter |
| LogTable.ModuleField | logr.go:114-154 | the optional `module` field is the single field `module` holding the name when the name is non-empty, and absent otherwise |
| LogTable.PrivateField | logr.go:116-128 | the optional `private` field is the single field `private`=true when the flag is set, and absent otherwise |
| LogTable.LogEventMatchesTable | logr.go:52-259 | for every event and configuration the switch's calls equal the table: fixed message, optional fields composed in their fixed positions, per-type calls followed by at most one failure |
| LogEventProperties.PerTypeEvents | logr.go:113-202 | Provided, Replaced and Decorated make one informational call per output type naming that type in list order, then exactly one error call if and only if the error is non-nil, as the last call and never once per type |
| LogEventProperties.ModuleFieldIffNamed | logr.go:89-231 | for Supplied, Provided, Replaced, Decorated, Invoking and Invoked every call has a `module` key exactly when the module name is non-empty, holding that name; an empty name leaves the key out |
| FieldOrder.SuppliedFieldOrder | logr.go:89-112 | Supplied makes one call with keys `type` then `module` (when named), an error call exactly when there is an error |
| FieldOrder.ProvidedFieldOrder | logr.go:113-154 | each per-type call of Provided has keys `constructor`, `module` (when named), `type`, `private` (when private); the error call has only `module` (when named) |
| FieldOrder.ReplacedFieldOrder | logr.go:155-177 | each per-type call of Replaced has keys `module` (when named) then `type`; the error call has only `module` (when named) |
| FieldOrder.DecoratedFieldOrder | logr.go:178-202 | each per-type call of Decorated has keys `decorator`, `module` (when named), `type`; the error call has only `module` (when named) |
| FieldOrder.InvokingFieldOrder | logr.go:203-214 | Invoking makes one informational call with keys `function` then `module` (when named), and no stack |
| FieldOrder.InvokedFieldOrder | logr.go:215-231 | a failed Invoked makes one call with keys `stack`, `function`, `module` (when named), the stack holding the trace |
| FieldOrder.PrivateOnlyWhenTrue | logr.go:116-150 | a `private` key appears exactly on the per-type calls of a private Provided event, as the last field with value true; no field is ever logged as false |
| CallCounts.HookExecutedOneCall | logr.go:58-88 | a hook-executed event makes one call: an error call with keys `callee`, `caller` when there is an error, otherwise an informational call with `callee`, `caller`, `runtime` holding the rendered duration |
| CallCounts.RollingBackAlwaysFails | logr.go:239-240 | RollingBack makes one error call at the error level carrying the start error, even a nil one |
| CallCounts.SilentWithoutError | logr.go:215-244 | Stopped, RolledBack and Invoked make no call exactly when there is no error, and one error call carrying it otherwise |
| CallCounts.ExactlyOneCall | logr.go:53-257 | OnStartExecuting, OnStopExecuting, Supplied, Invoking, Stopping, Started and LoggerInitialized make exactly one call, an error call exactly when the event carries an error, forwarding it |
| CallCounts.UnrecognizedEventIsIgnored | logr.go:52-259 | an event outside the type switch makes no call |
| CallCounts.FailureLoggedOnceAndLast | logr.go:53-257 | every event makes at most one error call, as its last call; there is one exactly when the event carries an error or is a rollback, and its cause is the event's error unchanged |
| CallCounts.StoppingUppercasesSignal | logr.go:232-234 | Stopping makes one informational call whose only key is `signal`, holding the signal name upper-cased character by character |
| Levels.UseLogLevelRelevelsInfoCalls | logr.go:33-45 | after `UseLogLevel` the same calls are made in the same order; only the informational calls change, and only in their level |
| Levels.UseErrorLevelRelevelsErrorCalls | logr.go:38-49 | after `UseErrorLevel` the same calls are made in the same order; only the error calls change, and only in their level |
| Levels.DefaultLoggerLogsAtLevelZero | logr.go:262-265 | the logger `WithLogr` wires passes level 0 to `Logger.V` for every call |
| LoggerExamples.OnStartExecutingExample | logr_test.go:37-44 | a hook-start-executing event logs `callee` and `caller` at level 0 |
| LoggerExamples.OnStopExecutedErrorExample | logr_test.go:54-62 | a failed stop hook logs "OnStop hook failed" with `callee`, `caller` and the error |
| LoggerExamples.OnStopExecutedExample | logr_test.go:63-71 | a successful stop hook logs `callee`, `caller`, `runtime`=3ms |
| LoggerExamples.SuppliedErrorExample | logr_test.go:96-100 | a failed supply without module logs only `type` with the error |
| LoggerExamples.PrivateProvideExample | logr_test.go:111-120 | a private provide logs `constructor`, `module`, `type`, `private`=true |
| LoggerExamples.ProvideErrorExample | logr_test.go:121-125 | a failed provide without types or module logs one error call without fields |
| LoggerExamples.InvokedErrorExample | logr_test.go:158-162 | a failed invoke logs an empty `stack` then `function` |
| LoggerExamples.StoppingExample | logr_test.go:168-172 | the interrupt signal is logged as INTERRUPT |
| LoggerExamples.RollingBackExample | logr_test.go:178-182 | a rollback logs "start failed, rolling back" with the start error |
| LoggerExamples.StartedExample | logr_test.go:188-192 | a successful start logs "started" at level 0 with no fields |

## Left out

- The logr sink (`Logger.V`, `Info`, `Error`) and its rendering of calls into text: `LogEvent` returns the calls instead of making them, so the `Logger` pointer of `LogrLogger` is not modelled.
- `time.Duration.String` and `os.Signal.String` belong to the Go runtime: the events carry the rendered duration and the rendered signal name as strings.
- Strings.UpperChar, Strings.ToUpper: upper-case ASCII letters only and keep every other character; Go's `strings.ToUpper` also maps non-ASCII letters by Unicode case rules, which signal names do not need.
- The level of an error call is the value passed to `Logger.V`; logr's `Error` ignores verbosity, so the error level does not change what the sink prints. The model records the level passed and says nothing about rendering.
- FxLogr.UseLogLevel: levels are unbounded integers; they are stored and forwarded, never computed with, so Go's `int` width plays no part.
- Event fields the logger never reads (for example the hook method name and the supplied value's stack trace) are not part of `FxEvent.Event`.
- The compile-time assertion that `LogrLogger` implements `fxevent.Logger` and the parallel execution of the tests: neither changes which calls are made.
