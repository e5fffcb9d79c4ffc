/**
 The fx event logger backed by a logr sink. The sink itself is not modelled:
 `LogEvent` returns, in order, the calls the logger makes on it.
 */
module FxLogr {
  import opened Wrappers
  import opened FxEvent
  import Strings

  /** The two verbosity levels the logger is configured with. */
  datatype LogrLogger = LogrLogger(logLevel: int, errorLevel: int)

  /** A value of a key/value pair: the loggers pass strings, and `true` for `private`. */
  datatype Value = Text(text: string) | Flag(flag: bool)

  datatype Field = Field(key: string, value: Value)

  /**
   One call on the sink: `InfoCall` is `Logger.V(level).Info(msg, fields...)`,
   `ErrorCall` is `Logger.V(level).Error(cause, msg, fields...)`. The cause of an
   error call is forwarded as the event holds it, nil included.
   */
  datatype LogCall =
    | InfoCall(level: int, msg: string, fields: seq<Field>)
    | ErrorCall(level: int, cause: Option<Error>, msg: string, fields: seq<Field>)

  /** The logger that process wiring obtains: both levels at their zero value. */
  function WithLogr(): (l: LogrLogger)
    ensures l.logLevel == 0 && l.errorLevel == 0
  {
    LogrLogger(0, 0)
  }

  /** Sets the level of informational calls; the error level is kept. */
  function UseLogLevel(l: LogrLogger, level: int): (r: LogrLogger)
    ensures r.logLevel == level
    ensures r.errorLevel == l.errorLevel
  {
    l.(logLevel := level)
  }

  /** Sets the level of error calls; the informational level is kept. */
  function UseErrorLevel(l: LogrLogger, level: int): (r: LogrLogger)
    ensures r.errorLevel == level
    ensures r.logLevel == l.logLevel
  {
    l.(errorLevel := level)
  }

  function Str(key: string, value: string): Field {
    Field(key, Text(value))
  }

  /** An informational call at the configured log level. */
  function LogInfo(l: LogrLogger, msg: string, fields: seq<Field>): LogCall {
    InfoCall(l.logLevel, msg, fields)
  }

  /** An error call at the configured error level. */
  function LogError(l: LogrLogger, cause: Option<Error>, msg: string, fields: seq<Field>): LogCall {
    ErrorCall(l.errorLevel, cause, msg, fields)
  }

  /**
   The loop over an event's output types: one informational call per type, in
   list order, whose fields are `before`, then `type`, then `after`.
   */
  function EachType(l: LogrLogger, msg: string, before: seq<Field>, types: seq<string>, after: seq<Field>)
    : (r: seq<LogCall>)
    ensures |r| == |types|
    ensures forall i :: 0 <= i < |types| ==>
              r[i] == InfoCall(l.logLevel, msg, before + [Str("type", types[i])] + after)
  {
    if |types| == 0 then []
    else [LogInfo(l, msg, before + [Str("type", types[0])] + after)] + EachType(l, msg, before, types[1..], after)
  }

  /** One error call when `err` is present, nothing otherwise. */
  function ErrorIfAny(l: LogrLogger, err: Option<Error>, msg: string, fields: seq<Field>): (r: seq<LogCall>)
    ensures |r| <= 1
    ensures |r| == 1 <==> err.Some?
    ensures forall c <- r :: c.ErrorCall? && c.cause == err && c.level == l.errorLevel
    ensures forall c <- r :: c.msg == msg && c.fields == fields
  {
    if err.Some? then [LogError(l, err, msg, fields)] else []
  }

  const applyingOptions := "error encountered while applying options"

  /**
   The calls the logger makes on its sink for one event, in order. Every call
   carries the level configured for its severity, and only the last call may be
   an error call.
   */
  function LogEvent(l: LogrLogger, ev: Event): (r: seq<LogCall>)
    ensures forall c <- r :: c.InfoCall? ==> c.level == l.logLevel
    ensures forall c <- r :: c.ErrorCall? ==> c.level == l.errorLevel
    ensures forall i :: 0 <= i < |r| - 1 ==> r[i].InfoCall?
  {
    match ev
    case OnStartExecuting(functionName, callerName) =>
      [LogInfo(l, "OnStart hook executing", [Str("callee", functionName), Str("caller", callerName)])]
    case OnStartExecuted(functionName, callerName, runtime, err) =>
      if err.Some? then
        [LogError(l, err, "OnStart hook failed", [Str("callee", functionName), Str("caller", callerName)])]
      else
        [LogInfo(l, "OnStart hook executed",
                 [Str("callee", functionName), Str("caller", callerName), Str("runtime", runtime)])]
    case OnStopExecuting(functionName, callerName) =>
      [LogInfo(l, "OnStop hook executing", [Str("callee", functionName), Str("caller", callerName)])]
    case OnStopExecuted(functionName, callerName, runtime, err) =>
      if err.Some? then
        [LogError(l, err, "OnStop hook failed", [Str("callee", functionName), Str("caller", callerName)])]
      else
        [LogInfo(l, "OnStop hook executed",
                 [Str("callee", functionName), Str("caller", callerName), Str("runtime", runtime)])]
    case Supplied(typeName, moduleName, err) =>
      if |moduleName| != 0 then
        if err.Some? then
          [LogError(l, err, applyingOptions, [Str("type", typeName), Str("module", moduleName)])]
        else
          [LogInfo(l, "supplied", [Str("type", typeName), Str("module", moduleName)])]
      else
        if err.Some? then
          [LogError(l, err, applyingOptions, [Str("type", typeName)])]
        else
          [LogInfo(l, "supplied", [Str("type", typeName)])]
    case Provided(constructorName, outputTypeNames, moduleName, err, private) =>
      if |moduleName| != 0 then
        (if private then
           EachType(l, "provided", [Str("constructor", constructorName), Str("module", moduleName)],
                    outputTypeNames, [Field("private", Flag(true))])
         else
           EachType(l, "provided", [Str("constructor", constructorName), Str("module", moduleName)],
                    outputTypeNames, []))
        + ErrorIfAny(l, err, applyingOptions, [Str("module", moduleName)])
      else
        (if private then
           EachType(l, "provided", [Str("constructor", constructorName)],
                    outputTypeNames, [Field("private", Flag(true))])
         else
           EachType(l, "provided", [Str("constructor", constructorName)], outputTypeNames, []))
        + ErrorIfAny(l, err, applyingOptions, [])
    case Replaced(outputTypeNames, moduleName, err) =>
      if |moduleName| != 0 then
        EachType(l, "replaced", [Str("module", moduleName)], outputTypeNames, [])
        + ErrorIfAny(l, err, "error encountered while replacing", [Str("module", moduleName)])
      else
        EachType(l, "replaced", [], outputTypeNames, [])
        + ErrorIfAny(l, err, "error encountered while replacing", [])
    case Decorated(decoratorName, moduleName, outputTypeNames, err) =>
      if |moduleName| != 0 then
        EachType(l, "decorated", [Str("decorator", decoratorName), Str("module", moduleName)],
                 outputTypeNames, [])
        + ErrorIfAny(l, err, applyingOptions, [Str("module", moduleName)])
      else
        EachType(l, "decorated", [Str("decorator", decoratorName)], outputTypeNames, [])
        + ErrorIfAny(l, err, applyingOptions, [])
    case Invoking(functionName, moduleName) =>
      // The stack is deliberately not logged.
      if |moduleName| != 0 then
        [LogInfo(l, "invoking", [Str("function", functionName), Str("module", moduleName)])]
      else
        [LogInfo(l, "invoking", [Str("function", functionName)])]
    case Invoked(functionName, moduleName, err, trace) =>
      if |moduleName| != 0 then
        ErrorIfAny(l, err, "invoke failed",
                   [Str("stack", trace), Str("function", functionName), Str("module", moduleName)])
      else
        ErrorIfAny(l, err, "invoke failed", [Str("stack", trace), Str("function", functionName)])
    case Stopping(signal) =>
      [LogInfo(l, "received signal", [Str("signal", Strings.ToUpper(signal))])]
    case Stopped(err) =>
      ErrorIfAny(l, err, "stop failed", [])
    case RollingBack(startErr) =>
      [LogError(l, startErr, "start failed, rolling back", [])]
    case RolledBack(err) =>
      ErrorIfAny(l, err, "rollback failed", [])
    case Started(err) =>
      if err.Some? then [LogError(l, err, "start failed", [])]
      else [LogInfo(l, "started", [])]
    case LoggerInitialized(err, constructorName) =>
      if err.Some? then [LogError(l, err, "custom logger initialization failed", [])]
      else [LogInfo(l, "initialized custom fxevent.Logger", [Str("function", constructorName)])]
    case Unrecognized =>
      []
  }
}
