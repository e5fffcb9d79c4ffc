/**
 An independent, table-shaped description of the logger: each event kind is
 one row that composes its optional fields (`module`, `private`) and its
 optional trailing failure, instead of spelling out every combination as the
 logger's branches do. `LogEventMatchesTable` proves the two agree.
 */
module LogTable {
  import opened Wrappers
  import opened FxEvent
  import opened FxLogr
  import Strings

  /** The `module` field: present exactly when the module name is non-empty. */
  function ModuleField(moduleName: string): (fs: seq<Field>)
    ensures |fs| <= 1
    ensures |fs| == 1 <==> |moduleName| != 0
    ensures forall f <- fs :: f == Field("module", Text(moduleName))
  {
    if |moduleName| == 0 then [] else [Field("module", Text(moduleName))]
  }

  /** The `private` field: present, with value true, exactly when the flag is set. */
  function PrivateField(private: bool): (fs: seq<Field>)
    ensures |fs| <= 1
    ensures |fs| == 1 <==> private
    ensures forall f <- fs :: f == Field("private", Flag(true))
  {
    if private then [Field("private", Flag(true))] else []
  }

  function HookFields(functionName: string, callerName: string): seq<Field> {
    [Field("callee", Text(functionName)), Field("caller", Text(callerName))]
  }

  /** An event that logs exactly once: the failure when there is one, the success otherwise. */
  function OneOf(l: LogrLogger, err: Option<Error>, infoMsg: string, infoFields: seq<Field>,
                 errorMsg: string, errorFields: seq<Field>): seq<LogCall> {
    if err.Some? then [ErrorCall(l.errorLevel, err, errorMsg, errorFields)]
    else [InfoCall(l.logLevel, infoMsg, infoFields)]
  }

  /** A failure logged once if present, and silence otherwise. */
  function Trailer(l: LogrLogger, err: Option<Error>, msg: string, fields: seq<Field>): seq<LogCall> {
    if err.None? then [] else [ErrorCall(l.errorLevel, err, msg, fields)]
  }

  /** One informational call per output type, all sharing the fields around `type`. */
  function PerTypeCalls(l: LogrLogger, msg: string, before: seq<Field>, types: seq<string>, after: seq<Field>)
    : seq<LogCall> {
    seq(|types|, i requires 0 <= i < |types| =>
          InfoCall(l.logLevel, msg, before + [Field("type", Text(types[i]))] + after))
  }

  function Table(l: LogrLogger, ev: Event): seq<LogCall> {
    match ev
    case OnStartExecuting(f, c) =>
      [InfoCall(l.logLevel, "OnStart hook executing", HookFields(f, c))]
    case OnStartExecuted(f, c, runtime, err) =>
      OneOf(l, err, "OnStart hook executed", HookFields(f, c) + [Field("runtime", Text(runtime))],
            "OnStart hook failed", HookFields(f, c))
    case OnStopExecuting(f, c) =>
      [InfoCall(l.logLevel, "OnStop hook executing", HookFields(f, c))]
    case OnStopExecuted(f, c, runtime, err) =>
      OneOf(l, err, "OnStop hook executed", HookFields(f, c) + [Field("runtime", Text(runtime))],
            "OnStop hook failed", HookFields(f, c))
    case Supplied(t, m, err) =>
      OneOf(l, err, "supplied", [Field("type", Text(t))] + ModuleField(m),
            "error encountered while applying options", [Field("type", Text(t))] + ModuleField(m))
    case Provided(c, types, m, err, p) =>
      PerTypeCalls(l, "provided", [Field("constructor", Text(c))] + ModuleField(m), types, PrivateField(p))
      + Trailer(l, err, "error encountered while applying options", ModuleField(m))
    case Replaced(types, m, err) =>
      PerTypeCalls(l, "replaced", ModuleField(m), types, [])
      + Trailer(l, err, "error encountered while replacing", ModuleField(m))
    case Decorated(d, m, types, err) =>
      PerTypeCalls(l, "decorated", [Field("decorator", Text(d))] + ModuleField(m), types, [])
      + Trailer(l, err, "error encountered while applying options", ModuleField(m))
    case Invoking(f, m) =>
      [InfoCall(l.logLevel, "invoking", [Field("function", Text(f))] + ModuleField(m))]
    case Invoked(f, m, err, trace) =>
      Trailer(l, err, "invoke failed", [Field("stack", Text(trace)), Field("function", Text(f))] + ModuleField(m))
    case Stopping(signal) =>
      [InfoCall(l.logLevel, "received signal", [Field("signal", Text(Strings.ToUpper(signal)))])]
    case Stopped(err) =>
      Trailer(l, err, "stop failed", [])
    case RollingBack(startErr) =>
      [ErrorCall(l.errorLevel, startErr, "start failed, rolling back", [])]
    case RolledBack(err) =>
      Trailer(l, err, "rollback failed", [])
    case Started(err) =>
      OneOf(l, err, "started", [], "start failed", [])
    case LoggerInitialized(err, c) =>
      OneOf(l, err, "initialized custom fxevent.Logger", [Field("function", Text(c))],
            "custom logger initialization failed", [])
    case Unrecognized =>
      []
  }

  lemma EachTypeIsPerTypeCalls(l: LogrLogger, msg: string, before: seq<Field>, types: seq<string>,
                               after: seq<Field>)
    ensures EachType(l, msg, before, types, after) == PerTypeCalls(l, msg, before, types, after)
  {
  }

  /** The logger's branches and the table agree on every event and configuration. */
  lemma LogEventMatchesTable(l: LogrLogger, ev: Event)
    ensures LogEvent(l, ev) == Table(l, ev)
  {
    if PerType(ev) {
      PerTypeRowsMatch(l, ev);
    } else if ModuleScoped(ev) {
      ModuleRowsMatch(l, ev);
    } else if ev.OnStartExecuted? || ev.OnStopExecuted? {
      HookRowsMatch(l, ev);
    } else {
      OtherRowsMatch(l, ev);
    }
  }

  lemma PerTypeRowsMatch(l: LogrLogger, ev: Event)
    requires PerType(ev)
    ensures LogEvent(l, ev) == Table(l, ev)
  {
    if ev.Provided? {
      ProvidedRowMatches(l, ev);
    } else if ev.Replaced? {
      EachTypeIsPerTypeCalls(l, "replaced", ModuleField(ev.moduleName), ev.outputTypeNames, []);
    } else {
      DecoratedRowMatches(l, ev);
    }
  }

  lemma ProvidedRowMatches(l: LogrLogger, ev: Event)
    requires ev.Provided?
    ensures LogEvent(l, ev) == Table(l, ev)
  {
    var c, m := ev.constructorName, ev.moduleName;
    EachTypeIsPerTypeCalls(l, "provided", [Field("constructor", Text(c))] + ModuleField(m), ev.outputTypeNames,
                           PrivateField(ev.private));
    if |m| != 0 {
      assert [Field("constructor", Text(c))] + ModuleField(m) == [Str("constructor", c), Str("module", m)];
    } else {
      assert [Field("constructor", Text(c))] + ModuleField(m) == [Str("constructor", c)];
    }
  }

  lemma DecoratedRowMatches(l: LogrLogger, ev: Event)
    requires ev.Decorated?
    ensures LogEvent(l, ev) == Table(l, ev)
  {
    var d, m := ev.decoratorName, ev.moduleName;
    EachTypeIsPerTypeCalls(l, "decorated", [Field("decorator", Text(d))] + ModuleField(m), ev.outputTypeNames, []);
    if |m| != 0 {
      assert [Field("decorator", Text(d))] + ModuleField(m) == [Str("decorator", d), Str("module", m)];
    } else {
      assert [Field("decorator", Text(d))] + ModuleField(m) == [Str("decorator", d)];
    }
  }

  lemma ModuleRowsMatch(l: LogrLogger, ev: Event)
    requires ModuleScoped(ev) && !PerType(ev)
    ensures LogEvent(l, ev) == Table(l, ev)
  {
    match ev
    case Supplied(t, m, err) =>
      if |m| != 0 {
        assert [Field("type", Text(t))] + ModuleField(m) == [Str("type", t), Str("module", m)];
      } else {
        assert [Field("type", Text(t))] + ModuleField(m) == [Str("type", t)];
      }
    case Invoking(f, m) =>
      if |m| != 0 {
        assert [Field("function", Text(f))] + ModuleField(m) == [Str("function", f), Str("module", m)];
      } else {
        assert [Field("function", Text(f))] + ModuleField(m) == [Str("function", f)];
      }
    case Invoked(f, m, err, trace) =>
      var fs := [Field("stack", Text(trace)), Field("function", Text(f))];
      if |m| != 0 {
        assert fs + ModuleField(m) == [Str("stack", trace), Str("function", f), Str("module", m)];
      } else {
        assert fs + ModuleField(m) == fs;
      }
  }

  lemma HookRowsMatch(l: LogrLogger, ev: Event)
    requires ev.OnStartExecuted? || ev.OnStopExecuted?
    ensures LogEvent(l, ev) == Table(l, ev)
  {
    assert HookFields(ev.functionName, ev.callerName) + [Str("runtime", ev.runtime)]
        == [Str("callee", ev.functionName), Str("caller", ev.callerName), Str("runtime", ev.runtime)];
  }

  lemma OtherRowsMatch(l: LogrLogger, ev: Event)
    requires !PerType(ev) && !ModuleScoped(ev) && !ev.OnStartExecuted? && !ev.OnStopExecuted?
    ensures LogEvent(l, ev) == Table(l, ev)
  {
  }
}
