/** The fixed order of the fields of each event's log calls. */
module FieldOrder {
  import opened Wrappers
  import opened FxEvent
  import opened FxLogr
  import opened LogTable
  import opened LogEventProperties

  /** The key `private` contributes: present only when the flag is set. */
  function PrivateKey(private: bool): seq<string> {
    if private then ["private"] else []
  }

  /** Supplied: one call, `type` then `module`; an error call exactly when there is an error. */
  lemma SuppliedFieldOrder(l: LogrLogger, ev: Event)
    requires ev.Supplied?
    ensures var r := LogEvent(l, ev);
      && |r| == 1
      && (r[0].ErrorCall? <==> ev.err.Some?)
      && Keys(r[0].fields) == ["type"] + ModuleKey(ev.moduleName)
      && Lookup(r[0].fields, "type") == Some(Text(ev.typeName))
  {
    LogEventMatchesTable(l, ev);
    KeysAppend([Field("type", Text(ev.typeName))], ModuleField(ev.moduleName));
  }

  lemma KeysOfPrivateField(private: bool)
    ensures Keys(PrivateField(private)) == PrivateKey(private)
  {
  }

  /** The keys of a per-type row: the shared keys around `type`, then the failure's keys. */
  lemma PerTypeRowKeys(l: LogrLogger, msg: string, before: seq<Field>, types: seq<string>, after: seq<Field>,
                       err: Option<Error>, errorMsg: string, errorFields: seq<Field>)
    ensures var r := PerTypeCalls(l, msg, before, types, after) + Trailer(l, err, errorMsg, errorFields);
      && (forall i :: 0 <= i < |types| ==> Keys(r[i].fields) == Keys(before) + ["type"] + Keys(after))
      && (err.Some? ==> Keys(r[|r| - 1].fields) == Keys(errorFields))
  {
    var calls := PerTypeCalls(l, msg, before, types, after);
    var r := calls + Trailer(l, err, errorMsg, errorFields);
    forall i | 0 <= i < |types|
      ensures Keys(r[i].fields) == Keys(before) + ["type"] + Keys(after)
    {
      assert r[i] == calls[i];
      KeysAppend(before, [Field("type", Text(types[i]))]);
      KeysAppend(before + [Field("type", Text(types[i]))], after);
    }
  }

  /**
   Provided: every per-type call has `constructor`, `module`, `type`, then
   `private`; the trailing error call has only `module`.
   */
  lemma ProvidedFieldOrder(l: LogrLogger, ev: Event)
    requires ev.Provided?
    ensures var r := LogEvent(l, ev);
      && (forall i :: 0 <= i < |ev.outputTypeNames| ==>
            Keys(r[i].fields) == ["constructor"] + ModuleKey(ev.moduleName) + ["type"] + PrivateKey(ev.private))
      && (ev.err.Some? ==> Keys(r[|r| - 1].fields) == ModuleKey(ev.moduleName))
  {
    LogEventMatchesTable(l, ev);
    var m := ev.moduleName;
    var before := [Field("constructor", Text(ev.constructorName))] + ModuleField(m);
    PerTypeRowKeys(l, "provided", before, ev.outputTypeNames, PrivateField(ev.private),
                   ev.err, "error encountered while applying options", ModuleField(m));
    KeysAppend([Field("constructor", Text(ev.constructorName))], ModuleField(m));
    KeysOfModuleField(m);
    KeysOfPrivateField(ev.private);
  }

  /** Replaced: every per-type call has `module` then `type`; the error call has only `module`. */
  lemma ReplacedFieldOrder(l: LogrLogger, ev: Event)
    requires ev.Replaced?
    ensures var r := LogEvent(l, ev);
      && (forall i :: 0 <= i < |ev.outputTypeNames| ==>
            Keys(r[i].fields) == ModuleKey(ev.moduleName) + ["type"])
      && (ev.err.Some? ==> Keys(r[|r| - 1].fields) == ModuleKey(ev.moduleName))
  {
    LogEventMatchesTable(l, ev);
    var m := ev.moduleName;
    PerTypeRowKeys(l, "replaced", ModuleField(m), ev.outputTypeNames, [],
                   ev.err, "error encountered while replacing", ModuleField(m));
    KeysOfModuleField(m);
    assert Keys([]) + [] == [];
  }

  /** Decorated: every per-type call has `decorator`, `module`, then `type`; the error call has only `module`. */
  lemma DecoratedFieldOrder(l: LogrLogger, ev: Event)
    requires ev.Decorated?
    ensures var r := LogEvent(l, ev);
      && (forall i :: 0 <= i < |ev.outputTypeNames| ==>
            Keys(r[i].fields) == ["decorator"] + ModuleKey(ev.moduleName) + ["type"])
      && (ev.err.Some? ==> Keys(r[|r| - 1].fields) == ModuleKey(ev.moduleName))
  {
    LogEventMatchesTable(l, ev);
    var m := ev.moduleName;
    var before := [Field("decorator", Text(ev.decoratorName))] + ModuleField(m);
    PerTypeRowKeys(l, "decorated", before, ev.outputTypeNames, [],
                   ev.err, "error encountered while applying options", ModuleField(m));
    KeysAppend([Field("decorator", Text(ev.decoratorName))], ModuleField(m));
    KeysOfModuleField(m);
  }

  /** Invoking: one informational call, `function` then `module`; the stack is never logged. */
  lemma InvokingFieldOrder(l: LogrLogger, ev: Event)
    requires ev.Invoking?
    ensures var r := LogEvent(l, ev);
      && |r| == 1 && r[0].InfoCall?
      && Keys(r[0].fields) == ["function"] + ModuleKey(ev.moduleName)
  {
    LogEventMatchesTable(l, ev);
    KeysAppend([Field("function", Text(ev.functionName))], ModuleField(ev.moduleName));
  }

  /** Invoked with an error: `stack`, `function`, then `module`, the stack holding the trace. */
  lemma InvokedFieldOrder(l: LogrLogger, ev: Event)
    requires ev.Invoked? && ev.err.Some?
    ensures var r := LogEvent(l, ev);
      && |r| == 1
      && Keys(r[0].fields) == ["stack", "function"] + ModuleKey(ev.moduleName)
      && Lookup(r[0].fields, "stack") == Some(Text(ev.trace))
  {
    LogEventMatchesTable(l, ev);
    KeysAppend([Field("stack", Text(ev.trace)), Field("function", Text(ev.functionName))], ModuleField(ev.moduleName));
  }

  /** Fields that are neither `private` nor boolean. */
  predicate Plain(fs: seq<Field>) {
    forall f <- fs :: f.key != "private" && f.value.Text?
  }

  /** A field list that ends in `private=true` when `private` holds, and has no such field otherwise. */
  predicate PrivateShape(fs: seq<Field>, private: bool) {
    if private then |fs| > 0 && Plain(fs[..|fs| - 1]) && fs[|fs| - 1] == Field("private", Flag(true))
    else Plain(fs)
  }

  lemma PrivateShapeOfPerTypeCalls(l: LogrLogger, msg: string, before: seq<Field>, types: seq<string>,
                                   private: bool)
    requires Plain(before)
    ensures forall c <- PerTypeCalls(l, msg, before, types, PrivateField(private)) :: PrivateShape(c.fields, private)
  {
    var r := PerTypeCalls(l, msg, before, types, PrivateField(private));
    forall i | 0 <= i < |types|
      ensures PrivateShape(r[i].fields, private)
    {
      var plain := before + [Field("type", Text(types[i]))];
      assert r[i].fields == plain + PrivateField(private);
      if private {
        assert r[i].fields[..|r[i].fields| - 1] == plain;
      } else {
        assert r[i].fields == plain;
      }
    }
  }

  lemma PlainAppend(a: seq<Field>, b: seq<Field>)
    requires Plain(a) && Plain(b)
    ensures Plain(a + b)
  {
  }

  lemma PlainModuleField(pre: seq<Field>, moduleName: string)
    requires Plain(pre)
    ensures Plain(pre + ModuleField(moduleName))
  {
  }

  lemma PlainTrailer(l: LogrLogger, err: Option<Error>, msg: string, fs: seq<Field>)
    requires Plain(fs)
    ensures forall c <- Trailer(l, err, msg, fs) :: PrivateShape(c.fields, false)
  {
  }

  lemma PlainOneOf(l: LogrLogger, err: Option<Error>, infoMsg: string, infoFields: seq<Field>,
                   errorMsg: string, errorFields: seq<Field>)
    requires Plain(infoFields) && Plain(errorFields)
    ensures forall c <- OneOf(l, err, infoMsg, infoFields, errorMsg, errorFields) :: PrivateShape(c.fields, false)
  {
  }

  lemma PrivateShapeOfCalls(l: LogrLogger, ev: Event)
    ensures forall c <- LogEvent(l, ev) :: PrivateShape(c.fields, ev.Provided? && ev.private && c.InfoCall?)
  {
    LogEventMatchesTable(l, ev);
    PrivateShapeOfTable(l, ev);
  }

  lemma PrivateShapeOfTable(l: LogrLogger, ev: Event)
    ensures forall c <- Table(l, ev) :: PrivateShape(c.fields, ev.Provided? && ev.private && c.InfoCall?)
  {
    if PerType(ev) {
      PrivateShapeOfPerTypeRows(l, ev);
    } else if ModuleScoped(ev) {
      PrivateShapeOfModuleRows(l, ev);
    } else {
      PrivateShapeOfOtherRows(l, ev);
    }
  }

  lemma PrivateShapeOfPerTypeRows(l: LogrLogger, ev: Event)
    requires PerType(ev)
    ensures forall c <- Table(l, ev) :: PrivateShape(c.fields, ev.Provided? && ev.private && c.InfoCall?)
  {
    var none: seq<Field> := [];
    PlainModuleField(none, ev.moduleName);
    assert none + ModuleField(ev.moduleName) == ModuleField(ev.moduleName);
    match ev
    case Provided(c, types, m, err, p) =>
      PlainModuleField([Field("constructor", Text(c))], m);
      PrivateShapeOfPerTypeCalls(l, "provided", [Field("constructor", Text(c))] + ModuleField(m), types, p);
      PlainTrailer(l, err, "error encountered while applying options", ModuleField(m));
    case Replaced(types, m, err) =>
      PrivateShapeOfPerTypeCalls(l, "replaced", ModuleField(m), types, false);
      PlainTrailer(l, err, "error encountered while replacing", ModuleField(m));
    case Decorated(d, m, types, err) =>
      PlainModuleField([Field("decorator", Text(d))], m);
      PrivateShapeOfPerTypeCalls(l, "decorated", [Field("decorator", Text(d))] + ModuleField(m), types, false);
      PlainTrailer(l, err, "error encountered while applying options", ModuleField(m));
  }

  lemma PrivateShapeOfModuleRows(l: LogrLogger, ev: Event)
    requires ModuleScoped(ev) && !PerType(ev)
    ensures forall c <- Table(l, ev) :: PrivateShape(c.fields, false)
  {
    match ev
    case Supplied(t, m, err) =>
      PlainModuleField([Field("type", Text(t))], m);
      PlainOneOf(l, err, "supplied", [Field("type", Text(t))] + ModuleField(m),
                 "error encountered while applying options", [Field("type", Text(t))] + ModuleField(m));
    case Invoking(f, m) =>
      PlainModuleField([Field("function", Text(f))], m);
    case Invoked(f, m, err, trace) =>
      PlainModuleField([Field("stack", Text(trace)), Field("function", Text(f))], m);
      PlainTrailer(l, err, "invoke failed", [Field("stack", Text(trace)), Field("function", Text(f))] + ModuleField(m));
  }

  lemma PrivateShapeOfOtherRows(l: LogrLogger, ev: Event)
    requires !ModuleScoped(ev)
    ensures forall c <- Table(l, ev) :: PrivateShape(c.fields, false)
  {
    match ev
    case OnStartExecuting(f, c) =>
    case OnStartExecuted(f, c, runtime, err) =>
      PlainOneOf(l, err, "OnStart hook executed", HookFields(f, c) + [Field("runtime", Text(runtime))],
                 "OnStart hook failed", HookFields(f, c));
    case OnStopExecuting(f, c) =>
    case OnStopExecuted(f, c, runtime, err) =>
      PlainOneOf(l, err, "OnStop hook executed", HookFields(f, c) + [Field("runtime", Text(runtime))],
                 "OnStop hook failed", HookFields(f, c));
    case Stopping(signal) =>
    case Stopped(err) =>
      PlainTrailer(l, err, "stop failed", []);
    case RollingBack(startErr) =>
    case RolledBack(err) =>
      PlainTrailer(l, err, "rollback failed", []);
    case Started(err) =>
      PlainOneOf(l, err, "started", [], "start failed", []);
    case LoggerInitialized(err, c) =>
      PlainOneOf(l, err, "initialized custom fxevent.Logger", [Field("function", Text(c))],
                 "custom logger initialization failed", []);
    case Unrecognized =>
  }

  /**
   The `private` field appears only on the per-type calls of a Provided event
   whose `Private` flag is set, always as the last field and with value true; no
   call ever carries a field whose value is false.
   */
  lemma PrivateOnlyWhenTrue(l: LogrLogger, ev: Event)
    ensures forall c <- LogEvent(l, ev) :: forall j :: 0 <= j < |c.fields| ==>
              (c.fields[j].key == "private" <==> ev.Provided? && ev.private && c.InfoCall? && j == |c.fields| - 1)
    ensures forall c <- LogEvent(l, ev) :: forall f <- c.fields :: f.key == "private" ==> f.value == Flag(true)
    ensures forall c <- LogEvent(l, ev) :: forall f <- c.fields :: f.value != Flag(false)
  {
    PrivateShapeOfCalls(l, ev);
    forall c <- LogEvent(l, ev)
      ensures forall j :: 0 <= j < |c.fields| ==>
                (c.fields[j].key == "private" <==> ev.Provided? && ev.private && c.InfoCall? && j == |c.fields| - 1)
      ensures forall f <- c.fields :: f.key == "private" ==> f.value == Flag(true)
      ensures forall f <- c.fields :: f.value != Flag(false)
    {
      var fs := c.fields;
      if ev.Provided? && ev.private && c.InfoCall? {
        assert forall j :: 0 <= j < |fs| - 1 ==> fs[j] in fs[..|fs| - 1];
      }
    }
  }
}
