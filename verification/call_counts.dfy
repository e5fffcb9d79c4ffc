/** How many calls each event produces, and which of them report a failure. */
module CallCounts {
  import opened Wrappers
  import opened FxEvent
  import opened FxLogr
  import opened LogTable
  import opened LogEventProperties
  import Strings

  /**
   The hook "executed" events log exactly once: a failure with `callee` and
   `caller` when the hook returned an error, and otherwise a success that also
   carries the hook's `runtime`.
   */
  lemma HookExecutedOneCall(l: LogrLogger, ev: Event)
    requires ev.OnStartExecuted? || ev.OnStopExecuted?
    ensures var r := LogEvent(l, ev);
      && |r| == 1
      && (ev.err.Some? ==>
            r[0].ErrorCall? && r[0].cause == ev.err && Keys(r[0].fields) == ["callee", "caller"])
      && (ev.err.None? ==>
            && r[0].InfoCall? && Keys(r[0].fields) == ["callee", "caller", "runtime"]
            && Lookup(r[0].fields, "runtime") == Some(Text(ev.runtime)))
  {
    LogEventMatchesTable(l, ev);
    LookupSkips(HookFields(ev.functionName, ev.callerName), [Field("runtime", Text(ev.runtime))], "runtime");
  }

  /**
   RollingBack always logs one error call carrying the start error, whether or
   not that error is nil.
   */
  lemma RollingBackAlwaysFails(l: LogrLogger, ev: Event)
    requires ev.RollingBack?
    ensures var r := LogEvent(l, ev);
      |r| == 1 && r[0].ErrorCall? && r[0].cause == ev.startErr && r[0].level == l.errorLevel
  {
  }

  /** Stopped, RolledBack and Invoked are silent without an error, and log it once otherwise. */
  lemma SilentWithoutError(l: LogrLogger, ev: Event)
    requires ev.Stopped? || ev.RolledBack? || ev.Invoked?
    ensures var r := LogEvent(l, ev);
      && (|r| == 0 <==> ev.err.None?)
      && (ev.err.Some? ==> |r| == 1 && r[0].ErrorCall? && r[0].cause == ev.err)
  {
  }

  /**
   OnStartExecuting, OnStopExecuting, Supplied, Invoking, Stopping, Started and
   LoggerInitialized always log exactly once, as an error call exactly when the
   event carries an error.
   */
  lemma ExactlyOneCall(l: LogrLogger, ev: Event)
    requires || ev.OnStartExecuting? || ev.OnStopExecuting? || ev.Supplied? || ev.Invoking?
             || ev.Stopping? || ev.Started? || ev.LoggerInitialized?
    ensures var r := LogEvent(l, ev);
      && |r| == 1
      && (r[0].ErrorCall? <==> Failure(ev).Some?)
      && (r[0].ErrorCall? ==> r[0].cause == Failure(ev))
  {
  }

  /** An event outside the type switch is dropped without a call. */
  lemma UnrecognizedEventIsIgnored(l: LogrLogger)
    ensures |LogEvent(l, Unrecognized)| == 0
  {
  }

  /** A per-type row ends in an error call exactly when it has a failure to report. */
  lemma PerTypeRowEndsInFailure(l: LogrLogger, msg: string, before: seq<Field>, types: seq<string>,
                                after: seq<Field>, err: Option<Error>, errorMsg: string, errorFields: seq<Field>)
    ensures var r := PerTypeCalls(l, msg, before, types, after) + Trailer(l, err, errorMsg, errorFields);
      && ((|r| > 0 && r[|r| - 1].ErrorCall?) <==> err.Some?)
      && (forall c <- r :: c.ErrorCall? ==> c.cause == err)
  {
    var calls := PerTypeCalls(l, msg, before, types, after);
    assert forall c <- calls :: c.InfoCall?;
  }

  /** The last call of a table row is an error call exactly when the event fails or rolls back. */
  lemma TableEndsInFailure(l: LogrLogger, ev: Event)
    ensures var r := Table(l, ev);
      (|r| > 0 && r[|r| - 1].ErrorCall?) <==> Failure(ev).Some? || ev.RollingBack?
    ensures forall c <- Table(l, ev) :: c.ErrorCall? ==> c.cause == Failure(ev)
  {
    match ev
    case Provided(c, types, m, err, p) =>
      PerTypeRowEndsInFailure(l, "provided", [Field("constructor", Text(c))] + ModuleField(m), types,
                              PrivateField(p), err, "error encountered while applying options", ModuleField(m));
    case Replaced(types, m, err) =>
      PerTypeRowEndsInFailure(l, "replaced", ModuleField(m), types, [],
                              err, "error encountered while replacing", ModuleField(m));
    case Decorated(d, m, types, err) =>
      PerTypeRowEndsInFailure(l, "decorated", [Field("decorator", Text(d))] + ModuleField(m), types, [],
                              err, "error encountered while applying options", ModuleField(m));
    case _ =>
  }

  /**
   Every event logs at most one error call, as its last call; there is one
   exactly when the event carries a failure or is a rollback, and it forwards
   the event's failure unchanged.
   */
  lemma FailureLoggedOnceAndLast(l: LogrLogger, ev: Event)
    ensures var r := LogEvent(l, ev);
      && CountErrors(r) == (if Failure(ev).Some? || ev.RollingBack? then 1 else 0)
      && ((|r| > 0 && r[|r| - 1].ErrorCall?) <==> Failure(ev).Some? || ev.RollingBack?)
      && (forall c <- r :: c.ErrorCall? ==> c.cause == Failure(ev))
  {
    LogEventMatchesTable(l, ev);
    TableEndsInFailure(l, ev);
    CountErrorsOfTrailingError(LogEvent(l, ev));
  }

  /** Stopping logs the received signal's name upper-cased, character by character. */
  lemma StoppingUppercasesSignal(l: LogrLogger, ev: Event)
    requires ev.Stopping?
    ensures var r := LogEvent(l, ev);
      && |r| == 1 && r[0].InfoCall? && Keys(r[0].fields) == ["signal"]
      && r[0].fields[0].value.Text?
      && var name := r[0].fields[0].value.text;
         && |name| == |ev.signal|
         && (forall i :: 0 <= i < |name| ==> name[i] == Strings.UpperChar(ev.signal[i]))
         && (forall i :: 0 <= i < |name| ==> !Strings.IsLowerAscii(name[i]))
  {
  }
}
