/** Sample events and the calls a default logger makes for them. */
module LoggerExamples {
  import opened Wrappers
  import opened FxEvent
  import opened FxLogr
  import Strings

  const someError := Some(Error("some error"))

  lemma OnStartExecutingExample()
    ensures LogEvent(WithLogr(), OnStartExecuting("hook.onStart", "bytes.NewBuffer"))
         == [InfoCall(0, "OnStart hook executing",
                      [Field("callee", Text("hook.onStart")), Field("caller", Text("bytes.NewBuffer"))])]
  {
  }

  lemma OnStopExecutedErrorExample()
    ensures LogEvent(WithLogr(), OnStopExecuted("hook.onStart1", "bytes.NewBuffer", "0s", someError))
         == [ErrorCall(0, someError, "OnStop hook failed",
                       [Field("callee", Text("hook.onStart1")), Field("caller", Text("bytes.NewBuffer"))])]
  {
  }

  lemma OnStopExecutedExample()
    ensures LogEvent(WithLogr(), OnStopExecuted("hook.onStart1", "bytes.NewBuffer", "3ms", None))
         == [InfoCall(0, "OnStop hook executed",
                      [Field("callee", Text("hook.onStart1")), Field("caller", Text("bytes.NewBuffer")),
                       Field("runtime", Text("3ms"))])]
  {
  }

  lemma SuppliedErrorExample()
    ensures LogEvent(WithLogr(), Supplied("*bytes.Buffer", "", someError))
         == [ErrorCall(0, someError, "error encountered while applying options",
                       [Field("type", Text("*bytes.Buffer"))])]
  {
  }

  lemma PrivateProvideExample()
    ensures LogEvent(WithLogr(), Provided("bytes.NewBuffer()", ["*bytes.Buffer"], "myModule", None, true))
         == [InfoCall(0, "provided",
                      [Field("constructor", Text("bytes.NewBuffer()")), Field("module", Text("myModule")),
                       Field("type", Text("*bytes.Buffer")), Field("private", Flag(true))])]
  {
    var fields := [Field("constructor", Text("bytes.NewBuffer()")), Field("module", Text("myModule"))];
    var calls := EachType(WithLogr(), "provided", fields, ["*bytes.Buffer"], [Field("private", Flag(true))]);
    assert calls[0].fields == fields + [Field("type", Text("*bytes.Buffer"))] + [Field("private", Flag(true))];
    assert fields + [Field("type", Text("*bytes.Buffer"))] + [Field("private", Flag(true))]
        == [Field("constructor", Text("bytes.NewBuffer()")), Field("module", Text("myModule")),
            Field("type", Text("*bytes.Buffer")), Field("private", Flag(true))];
    assert calls == [calls[0]];
    assert calls + ErrorIfAny(WithLogr(), None, applyingOptions, [Field("module", Text("myModule"))]) == calls;
  }

  lemma ProvideErrorExample()
    ensures LogEvent(WithLogr(), Provided("", [], "", someError, false))
         == [ErrorCall(0, someError, "error encountered while applying options", [])]
  {
  }

  lemma InvokedErrorExample()
    ensures LogEvent(WithLogr(), Invoked("bytes.NewBuffer()", "", someError, ""))
         == [ErrorCall(0, someError, "invoke failed",
                       [Field("stack", Text("")), Field("function", Text("bytes.NewBuffer()"))])]
  {
  }

  /** The interrupt signal's name, "interrupt", is logged upper-cased. */
  lemma StoppingExample(interrupt: string)
    requires interrupt == "interrupt"
    ensures LogEvent(WithLogr(), Stopping(interrupt))
         == [InfoCall(0, "received signal", [Field("signal", Text("INTERRUPT"))])]
  {
    InterruptUpperCased(interrupt);
  }

  lemma InterruptUpperCased(interrupt: string)
    requires interrupt == "interrupt"
    ensures Strings.ToUpper(interrupt) == "INTERRUPT"
  {
    var t := "INTERRUPT";
    forall i | 0 <= i < |interrupt|
      ensures Strings.UpperChar(interrupt[i]) == t[i]
    {
      assert Strings.IsLowerAscii(interrupt[i]) && interrupt[i] as int - 32 == t[i] as int;
    }
  }

  lemma RollingBackExample()
    ensures LogEvent(WithLogr(), RollingBack(someError))
         == [ErrorCall(0, someError, "start failed, rolling back", [])]
  {
  }

  lemma StartedExample()
    ensures LogEvent(WithLogr(), Started(None)) == [InfoCall(0, "started", [])]
  {
  }
}
