/** How the two configured levels reach the calls. */
module Levels {
  import opened FxEvent
  import opened FxLogr
  import opened LogTable

  /** The same call at another level. */
  function WithLevel(call: LogCall, level: int): LogCall {
    match call
    case InfoCall(_, msg, fields) => InfoCall(level, msg, fields)
    case ErrorCall(_, cause, msg, fields) => ErrorCall(level, cause, msg, fields)
  }

  /** `call` with its level replaced when it has the given severity. */
  function Relevel(call: LogCall, info: bool, level: int): LogCall {
    if call.InfoCall? == info then WithLevel(call, level) else call
  }

  lemma RelevelPerTypeCalls(l: LogrLogger, l': LogrLogger, msg: string, before: seq<Field>, types: seq<string>,
                            after: seq<Field>)
    ensures var r, r' := PerTypeCalls(l, msg, before, types, after), PerTypeCalls(l', msg, before, types, after);
      |r'| == |r| && forall i :: 0 <= i < |r| ==> r'[i] == WithLevel(r[i], l'.logLevel)
  {
  }

  /** The table under another configuration differs only in the levels of its calls. */
  lemma TableRelevel(l: LogrLogger, l': LogrLogger, ev: Event)
    ensures var r, r' := Table(l, ev), Table(l', ev);
      && |r'| == |r|
      && forall i :: 0 <= i < |r| ==>
           r'[i] == WithLevel(r[i], if r[i].InfoCall? then l'.logLevel else l'.errorLevel)
  {
    if PerType(ev) {
      TablePerTypeRelevel(l, l', ev);
    }
  }

  lemma TablePerTypeRelevel(l: LogrLogger, l': LogrLogger, ev: Event)
    requires PerType(ev)
    ensures var r, r' := Table(l, ev), Table(l', ev);
      && |r'| == |r|
      && forall i :: 0 <= i < |r| ==>
           r'[i] == WithLevel(r[i], if r[i].InfoCall? then l'.logLevel else l'.errorLevel)
  {
    match ev
    case Provided(c, types, m, err, p) =>
      RelevelPerTypeCalls(l, l', "provided", [Field("constructor", Text(c))] + ModuleField(m), types, PrivateField(p));
    case Replaced(types, m, err) =>
      RelevelPerTypeCalls(l, l', "replaced", ModuleField(m), types, []);
    case Decorated(d, m, types, err) =>
      RelevelPerTypeCalls(l, l', "decorated", [Field("decorator", Text(d))] + ModuleField(m), types, []);
  }

  /**
   Changing the informational level changes the level of the informational
   calls and nothing else: the same calls, in the same order, and the error
   calls untouched.
   */
  lemma UseLogLevelRelevelsInfoCalls(l: LogrLogger, level: int, ev: Event)
    ensures var r, r' := LogEvent(l, ev), LogEvent(UseLogLevel(l, level), ev);
      |r'| == |r| && forall i :: 0 <= i < |r| ==> r'[i] == Relevel(r[i], true, level)
  {
    var l' := UseLogLevel(l, level);
    LogEventMatchesTable(l, ev);
    LogEventMatchesTable(l', ev);
    TableRelevel(l, l', ev);
  }

  /**
   Changing the error level changes the level of the error calls and nothing
   else: the informational calls are untouched.
   */
  lemma UseErrorLevelRelevelsErrorCalls(l: LogrLogger, level: int, ev: Event)
    ensures var r, r' := LogEvent(l, ev), LogEvent(UseErrorLevel(l, level), ev);
      |r'| == |r| && forall i :: 0 <= i < |r| ==> r'[i] == Relevel(r[i], false, level)
  {
    var l' := UseErrorLevel(l, level);
    LogEventMatchesTable(l, ev);
    LogEventMatchesTable(l', ev);
    TableRelevel(l, l', ev);
  }

  /** The logger process wiring obtains passes level 0 to `Logger.V` for every call. */
  lemma DefaultLoggerLogsAtLevelZero(ev: Event)
    ensures forall c <- LogEvent(WithLogr(), ev) :: c.level == 0
  {
  }
}
