/**
 The lifecycle events of the fx framework, reduced to the fields the logger
 reads. The events are produced by the framework; the logger only inspects them.
 */
module FxEvent {
  import opened Wrappers

  /** An error value. The logger forwards it to the sink verbatim and never looks inside. */
  datatype Error = Error(message: string)

  /**
   One constructor per event type the logger's type switch names, plus
   `Unrecognized` for any other value of the event interface: the switch has
   no default branch, so such an event falls through without a log call.

   `runtime` is the hook's duration already rendered by `time.Duration.String`
   (for example "3ms"), and `signal` is the text `os.Signal.String` returns
   (for example "interrupt"); both renderings belong to the Go runtime.
   */
  datatype Event =
    | OnStartExecuting(functionName: string, callerName: string)
    | OnStartExecuted(functionName: string, callerName: string, runtime: string, err: Option<Error>)
    | OnStopExecuting(functionName: string, callerName: string)
    | OnStopExecuted(functionName: string, callerName: string, runtime: string, err: Option<Error>)
    | Supplied(typeName: string, moduleName: string, err: Option<Error>)
    | Provided(constructorName: string, outputTypeNames: seq<string>, moduleName: string,
               err: Option<Error>, private: bool)
    | Replaced(outputTypeNames: seq<string>, moduleName: string, err: Option<Error>)
    | Decorated(decoratorName: string, moduleName: string, outputTypeNames: seq<string>,
                err: Option<Error>)
    | Invoking(functionName: string, moduleName: string)
    | Invoked(functionName: string, moduleName: string, err: Option<Error>, trace: string)
    | Stopping(signal: string)
    | Stopped(err: Option<Error>)
    | RollingBack(startErr: Option<Error>)
    | RolledBack(err: Option<Error>)
    | Started(err: Option<Error>)
    | LoggerInitialized(err: Option<Error>, constructorName: string)
    | Unrecognized

  /** The events whose log lines may carry a `module` field. */
  predicate ModuleScoped(ev: Event) {
    ev.Supplied? || ev.Provided? || ev.Replaced? || ev.Decorated? || ev.Invoking? || ev.Invoked?
  }

  /** The events that log one line per output type. */
  predicate PerType(ev: Event) {
    ev.Provided? || ev.Replaced? || ev.Decorated?
  }

  /** The failure an event carries, if any: `StartErr` for a rollback, `Err` otherwise. */
  function Failure(ev: Event): Option<Error> {
    match ev
    case RollingBack(startErr) => startErr
    case OnStartExecuted(_, _, _, err) => err
    case OnStopExecuted(_, _, _, err) => err
    case Supplied(_, _, err) => err
    case Provided(_, _, _, err, _) => err
    case Replaced(_, _, err) => err
    case Decorated(_, _, _, err) => err
    case Invoked(_, _, err, _) => err
    case Stopped(err) => err
    case RolledBack(err) => err
    case Started(err) => err
    case LoggerInitialized(err, _) => err
    case _ => None
  }
}
