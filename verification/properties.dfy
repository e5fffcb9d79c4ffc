/**
 What the logger promises about the calls it makes: how many, in which order,
 with which fields and at which level.
 */
module LogEventProperties {
  import opened Wrappers
  import opened FxEvent
  import opened FxLogr
  import opened LogTable

  /** The keys of a field list, in order. */
  function Keys(fs: seq<Field>): seq<string> {
    seq(|fs|, i requires 0 <= i < |fs| => fs[i].key)
  }

  /** The value of the first field with the given key, if any. */
  function Lookup(fs: seq<Field>, key: string): Option<Value> {
    if |fs| == 0 then None
    else if fs[0].key == key then Some(fs[0].value)
    else Lookup(fs[1..], key)
  }

  /** The number of error calls in a sequence of calls. */
  function CountErrors(r: seq<LogCall>): nat {
    if |r| == 0 then 0 else (if r[0].ErrorCall? then 1 else 0) + CountErrors(r[1..])
  }

  /** The key `module` contributes, present exactly when the module name is non-empty. */
  function ModuleKey(moduleName: string): seq<string> {
    if |moduleName| == 0 then [] else ["module"]
  }

  /** Fields with other keys placed in front do not hide a key. */
  lemma {:induction false} LookupSkips(before: seq<Field>, rest: seq<Field>, key: string)
    requires forall f <- before :: f.key != key
    ensures Lookup(before + rest, key) == Lookup(rest, key)
  {
    if |before| > 0 {
      assert (before + rest)[1..] == before[1..] + rest;
      assert (before + rest)[0] == before[0];
      LookupSkips(before[1..], rest, key);
    } else {
      assert before + rest == rest;
    }
  }

  /** The `type` field of a per-type call is the type it was made for. */
  lemma TypeOfPerTypeCall(l: LogrLogger, msg: string, before: seq<Field>, types: seq<string>,
                          after: seq<Field>, i: nat)
    requires forall f <- before :: f.key != "type"
    requires i < |types|
    ensures Lookup(PerTypeCalls(l, msg, before, types, after)[i].fields, "type") == Some(Text(types[i]))
  {
    assert before + [Field("type", Text(types[i]))] + after == before + ([Field("type", Text(types[i]))] + after);
    LookupSkips(before, [Field("type", Text(types[i]))] + after, "type");
  }

  /** A sequence whose only possible error call is its last one holds at most one error call. */
  lemma {:induction false} CountErrorsOfTrailingError(r: seq<LogCall>)
    requires forall i :: 0 <= i < |r| - 1 ==> r[i].InfoCall?
    ensures CountErrors(r) == (if |r| > 0 && r[|r| - 1].ErrorCall? then 1 else 0)
  {
    if |r| > 0 {
      CountErrorsOfTrailingError(r[1..]);
    }
  }

  /** The shape shared by the per-type rows: the calls per type, then the optional failure. */
  lemma PerTypeRowShape(l: LogrLogger, msg: string, before: seq<Field>, types: seq<string>, after: seq<Field>,
                        err: Option<Error>, errorMsg: string, errorFields: seq<Field>)
    requires forall f <- before :: f.key != "type"
    ensures var r := PerTypeCalls(l, msg, before, types, after) + Trailer(l, err, errorMsg, errorFields);
      && |r| == |types| + (if err.Some? then 1 else 0)
      && (forall i :: 0 <= i < |types| ==>
            r[i].InfoCall? && Lookup(r[i].fields, "type") == Some(Text(types[i])))
      && (err.Some? ==> r[|r| - 1].ErrorCall? && r[|r| - 1].cause == err)
      && CountErrors(r) == (if err.Some? then 1 else 0)
  {
    var calls := PerTypeCalls(l, msg, before, types, after);
    var r := calls + Trailer(l, err, errorMsg, errorFields);
    forall i | 0 <= i < |types|
      ensures r[i].InfoCall? && Lookup(r[i].fields, "type") == Some(Text(types[i]))
    {
      assert r[i] == calls[i];
      TypeOfPerTypeCall(l, msg, before, types, after, i);
    }
    CountErrorsOfTrailingError(r);
  }

  /**
   Provided, Replaced and Decorated: one informational call per output type, in
   list order and each naming its type, then exactly one error call if and only
   if the event carries an error; that error call is the last one.
   */
  lemma PerTypeEvents(l: LogrLogger, ev: Event)
    requires PerType(ev)
    ensures var r := LogEvent(l, ev);
      && |r| == |ev.outputTypeNames| + (if ev.err.Some? then 1 else 0)
      && (forall i :: 0 <= i < |ev.outputTypeNames| ==>
            r[i].InfoCall? && Lookup(r[i].fields, "type") == Some(Text(ev.outputTypeNames[i])))
      && (ev.err.Some? ==> r[|r| - 1].ErrorCall? && r[|r| - 1].cause == ev.err)
      && CountErrors(r) == (if ev.err.Some? then 1 else 0)
  {
    LogEventMatchesTable(l, ev);
    match ev
    case Provided(c, types, m, err, p) =>
      PerTypeRowShape(l, "provided", [Field("constructor", Text(c))] + ModuleField(m), types, PrivateField(p),
                      err, "error encountered while applying options", ModuleField(m));
    case Replaced(types, m, err) =>
      PerTypeRowShape(l, "replaced", ModuleField(m), types, [],
                      err, "error encountered while replacing", ModuleField(m));
    case Decorated(d, m, types, err) =>
      PerTypeRowShape(l, "decorated", [Field("decorator", Text(d))] + ModuleField(m), types, [],
                      err, "error encountered while applying options", ModuleField(m));
  }

  lemma KeysAppend(a: seq<Field>, b: seq<Field>)
    ensures Keys(a + b) == Keys(a) + Keys(b)
  {
  }

  lemma KeysOfModuleField(moduleName: string)
    ensures Keys(ModuleField(moduleName)) == ModuleKey(moduleName)
  {
  }

  /**
   A `module` field placed between fields with other keys is found exactly when
   the module name is non-empty, and then holds that name.
   */
  lemma ModuleSlot(pre: seq<Field>, moduleName: string, post: seq<Field>)
    requires forall f <- pre :: f.key != "module"
    requires forall f <- post :: f.key != "module"
    ensures "module" in Keys(pre + ModuleField(moduleName) + post) <==> |moduleName| != 0
    ensures Lookup(pre + ModuleField(moduleName) + post, "module")
         == (if |moduleName| != 0 then Some(Text(moduleName)) else None)
  {
    var fs := pre + ModuleField(moduleName) + post;
    assert fs == pre + (ModuleField(moduleName) + post);
    LookupSkips(pre, ModuleField(moduleName) + post, "module");
    if |moduleName| == 0 {
      assert ModuleField(moduleName) + post == post;
      LookupSkips(post, [], "module");
      assert post + [] == post;
      assert forall k :: 0 <= k < |fs| ==> fs[k] in pre || fs[k] in post;
    } else {
      assert Keys(fs)[|pre|] == "module";
    }
  }

  /**
   A call's `module` field agrees with a module name: it is there exactly when
   the name is non-empty, and then holds the name.
   */
  predicate ModuleFieldAgrees(c: LogCall, moduleName: string) {
    && ("module" in Keys(c.fields) <==> |moduleName| != 0)
    && Lookup(c.fields, "module") == (if |moduleName| != 0 then Some(Text(moduleName)) else None)
  }

  lemma ModuleInPerTypeCalls(l: LogrLogger, msg: string, pre: seq<Field>, moduleName: string,
                             types: seq<string>, post: seq<Field>)
    requires forall f <- pre :: f.key != "module"
    requires forall f <- post :: f.key != "module"
    ensures forall c <- PerTypeCalls(l, msg, pre + ModuleField(moduleName), types, post) ::
              ModuleFieldAgrees(c, moduleName)
  {
    var r := PerTypeCalls(l, msg, pre + ModuleField(moduleName), types, post);
    forall i | 0 <= i < |types|
      ensures ModuleFieldAgrees(r[i], moduleName)
    {
      var rest := [Field("type", Text(types[i]))] + post;
      assert r[i].fields == pre + ModuleField(moduleName) + rest;
      ModuleSlot(pre, moduleName, rest);
    }
  }

  lemma ModuleInTrailer(l: LogrLogger, err: Option<Error>, msg: string, pre: seq<Field>, moduleName: string)
    requires forall f <- pre :: f.key != "module"
    ensures forall c <- Trailer(l, err, msg, pre + ModuleField(moduleName)) :: ModuleFieldAgrees(c, moduleName)
  {
    ModuleSlot(pre, moduleName, []);
    assert pre + ModuleField(moduleName) + [] == pre + ModuleField(moduleName);
  }

  lemma ModuleInPerTypeRow(l: LogrLogger, msg: string, pre: seq<Field>, moduleName: string, types: seq<string>,
                           post: seq<Field>, err: Option<Error>, errorMsg: string)
    requires forall f <- pre :: f.key != "module"
    requires forall f <- post :: f.key != "module"
    ensures forall c <- PerTypeCalls(l, msg, pre + ModuleField(moduleName), types, post)
                        + Trailer(l, err, errorMsg, ModuleField(moduleName)) ::
              ModuleFieldAgrees(c, moduleName)
  {
    ModuleInPerTypeCalls(l, msg, pre, moduleName, types, post);
    var none: seq<Field> := [];
    assert none + ModuleField(moduleName) == ModuleField(moduleName);
    ModuleInTrailer(l, err, errorMsg, none, moduleName);
  }

  lemma ModuleInPerTypeRows(l: LogrLogger, ev: Event)
    requires PerType(ev)
    ensures forall c <- Table(l, ev) :: ModuleFieldAgrees(c, ev.moduleName)
  {
    var none: seq<Field> := [];
    match ev
    case Provided(c, types, m, err, p) =>
      ModuleInPerTypeRow(l, "provided", [Field("constructor", Text(c))], m, types, PrivateField(p),
                         err, "error encountered while applying options");
    case Replaced(types, m, err) =>
      assert none + ModuleField(m) == ModuleField(m);
      ModuleInPerTypeRow(l, "replaced", none, m, types, [], err, "error encountered while replacing");
    case Decorated(d, m, types, err) =>
      ModuleInPerTypeRow(l, "decorated", [Field("decorator", Text(d))], m, types, [],
                         err, "error encountered while applying options");
  }

  lemma ModuleInSingleRows(l: LogrLogger, ev: Event)
    requires ModuleScoped(ev) && !PerType(ev)
    ensures forall c <- Table(l, ev) :: ModuleFieldAgrees(c, ev.moduleName)
  {
    var m := ev.moduleName;
    match ev
    case Supplied(t, _, err) =>
      ModuleSlot([Field("type", Text(t))], m, []);
      assert [Field("type", Text(t))] + ModuleField(m) + [] == [Field("type", Text(t))] + ModuleField(m);
    case Invoking(f, _) =>
      ModuleSlot([Field("function", Text(f))], m, []);
      assert [Field("function", Text(f))] + ModuleField(m) + [] == [Field("function", Text(f))] + ModuleField(m);
    case Invoked(f, _, err, trace) =>
      ModuleInTrailer(l, err, "invoke failed", [Field("stack", Text(trace)), Field("function", Text(f))], m);
  }

  /**
   Supplied, Provided, Replaced, Decorated, Invoking and Invoked: every call
   carries a `module` field exactly when the module name is non-empty, holding
   that name; an empty name leaves the field out rather than logging it empty.
   */
  lemma ModuleFieldIffNamed(l: LogrLogger, ev: Event)
    requires ModuleScoped(ev)
    ensures forall c <- LogEvent(l, ev) :: "module" in Keys(c.fields) <==> |ev.moduleName| != 0
    ensures forall c <- LogEvent(l, ev) ::
              Lookup(c.fields, "module") == (if |ev.moduleName| != 0 then Some(Text(ev.moduleName)) else None)
  {
    LogEventMatchesTable(l, ev);
    if PerType(ev) {
      ModuleInPerTypeRows(l, ev);
    } else {
      ModuleInSingleRows(l, ev);
    }
  }
}
