/** The documented examples, each as a method that runs the example's calls
    against a fresh sink and returns the records the sink received.  Each
    method's postcondition is the example's expected output, read as a
    record. */
module Examples {
  import opened Record
  import opened Levels
  import opened Dedup
  import opened KeyOrder
  import opened Sampling
  import opened Helpers
  import opened Assembly
  import opened Events
  import opened Loggers

  function S(k: string, v: string): Entry
  {
    Entry(k, Value.Str(v))
  }

  function I(k: string, n: int): Entry
  {
    Entry(k, Value.Int(n))
  }

  const Epoch := "0001-01-01T00:00:00Z"

  /** log.Info().Msg(msg), for a logger without dedup. */
  method InfoMsg(log: Logger, msg: string)
    modifies log.SamplerFrame(), log.sink
    ensures log.sink.records == old(log.sink.records) +
      (if old(log.WillPass(Info)) then [Assemble(NoDedup, Info, log.context, [], log.hooks, msg)] else [])
    ensures log.sampler.Basic? ==>
      log.sampler.s.counter == old(log.sampler.s.counter) + (if Passes(log.threshold, Info) then 1 else 0)
  {
    var e := log.Info();
    assert e.enabled ==> e.buf == LevelPrefix(Info) + log.context + [];
    e.Msg(msg);
  }

  /** log.Log().Msg(msg), for a logger without dedup. */
  method LogMsg(log: Logger, msg: string)
    modifies log.SamplerFrame(), log.sink
    ensures log.sink.records == old(log.sink.records) +
      (if old(log.WillPass(NoLevel)) then [Assemble(NoDedup, NoLevel, log.context, [], log.hooks, msg)] else [])
  {
    var e := log.Log();
    assert e.enabled ==> e.buf == LevelPrefix(NoLevel) + log.context + [];
    e.Msg(msg);
  }

  /** New(w).Info().Msg("hello world"). */
  method NewExample() returns (out: seq<seq<Entry>>)
    ensures out == [[S("level", "info"), S("message", "hello world")]]
  {
    var sink := new Sink();
    var log := New(sink);
    var e := log.Info();
    assert e.RecordFor("hello world") == [S("level", "info"), S("message", "hello world")];
    e.Msg("hello world");
    out := sink.records;
  }

  /** A context field sits between the level and the message. */
  method WithExample() returns (out: seq<seq<Entry>>)
    ensures out == [[S("level", "info"), S("foo", "bar"), S("message", "hello world")]]
  {
    var sink := new Sink();
    var log := New(sink).With().Str("foo", "bar").ToLogger();
    var e := log.Info();
    assert e.RecordFor("hello world") == [S("level", "info"), S("foo", "bar"), S("message", "hello world")];
    e.Msg("hello world");
    out := sink.records;
  }

  /** With threshold Warn, the Info call writes nothing and the Error call
      writes one record. */
  method LevelExample() returns (out: seq<seq<Entry>>)
    ensures out == [[S("level", "error"), S("message", "kept message")]]
  {
    var sink := new Sink();
    var log := New(sink).WithThreshold(Warn);
    var e1 := log.Info();
    e1.Msg("filtered out message");
    var e2 := log.Error();
    assert e2.RecordFor("kept message") == [S("level", "error"), S("message", "kept message")];
    e2.Msg("kept message");
    out := sink.records;
  }

  /** BasicSampler{N: 2} over four calls lets through calls 1 and 3. */
  method SampleExample() returns (out: seq<seq<Entry>>)
    ensures out == [[S("level", "info"), S("message", "message 1")],
                    [S("level", "info"), S("message", "message 3")]]
  {
    var sink := new Sink();
    var s := new BasicSampler(2);
    var log := New(sink).WithSampler(Basic(s));
    InfoMsg(log, "message 1");
    assert s.counter == 1;
    assert sink.records == [Assemble(NoDedup, Info, [], [], [], "message 1")];
    InfoMsg(log, "message 2");
    assert s.counter == 2;
    InfoMsg(log, "message 3");
    assert s.counter == 3;
    InfoMsg(log, "message 4");
    assert Assemble(NoDedup, Info, [], [], [], "message 1") == [S("level", "info"), S("message", "message 1")];
    assert Assemble(NoDedup, Info, [], [], [], "message 3") == [S("level", "info"), S("message", "message 3")];
    out := sink.records;
  }

  /** The two hooks add their fields, in registration order, between the
      level and the message. */
  method HookExample() returns (out: seq<seq<Entry>>)
    ensures out == [[S("level", "info"), S("level_name", "info"), S("the_message", "hello world"),
                     S("message", "hello world")]]
  {
    var sink := new Sink();
    var log := New(sink).WithHooks([LevelNameHook, MessageHook("The message")]);
    var e := log.Info();
    assert e.hooks == [LevelNameHook, MessageHook("The message")];
    assert e.hooks[..1] == [LevelNameHook];
    assert HooksFields(e.hooks, Info, "hello world") == [S("level_name", "info"), S("the_message", "hello world")];
    assert e.RecordFor("hello world") == [S("level", "info"), S("level_name", "info"),
                                          S("the_message", "hello world"), S("message", "hello world")];
    e.Msg("hello world");
    out := sink.records;
  }

  /** Print writes a debug record. */
  method PrintExample() returns (out: seq<seq<Entry>>)
    ensures out == [[S("level", "debug"), S("message", "hello world")]]
  {
    var sink := new Sink();
    var log := New(sink);
    log.Print("hello world");
    assert Assemble(NoDedup, Levels.Debug, [], [], [], "hello world") == [S("level", "debug"), S("message", "hello world")];
    out := sink.records;
  }

  /** Println keeps the newline it adds in the message. */
  method PrintlnExample() returns (out: seq<seq<Entry>>)
    ensures out == [[S("level", "debug"), S("message", "hello world\n")]]
  {
    var sink := new Sink();
    var log := New(sink);
    log.Println("hello world");
    assert "hello world" + "\n" == "hello world\n";
    assert Assemble(NoDedup, Levels.Debug, [], [], [], "hello world\n") == [S("level", "debug"), S("message", "hello world\n")];
    out := sink.records;
  }

  /** Event fields follow the level, in add order, and precede the
      message; the same holds at every level. */
  method TraceExample() returns (out: seq<seq<Entry>>)
    ensures out == [[S("level", "trace"), S("foo", "bar"), I("n", 123), S("message", "hello world")]]
  {
    var sink := new Sink();
    var log := New(sink);
    var e := log.Trace();
    e.Str("foo", "bar");
    e.Int("n", 123);
    assert e.RecordFor("hello world") == [S("level", "trace"), S("foo", "bar"), I("n", 123), S("message", "hello world")];
    e.Msg("hello world");
    out := sink.records;
  }

  method DebugExample() returns (out: seq<seq<Entry>>)
    ensures out == [[S("level", "debug"), S("foo", "bar"), I("n", 123), S("message", "hello world")]]
  {
    var sink := new Sink();
    var log := New(sink);
    var e := log.Debug();
    e.Str("foo", "bar");
    e.Int("n", 123);
    assert e.RecordFor("hello world") == [S("level", "debug"), S("foo", "bar"), I("n", 123), S("message", "hello world")];
    e.Msg("hello world");
    out := sink.records;
  }

  method InfoExample() returns (out: seq<seq<Entry>>)
    ensures out == [[S("level", "info"), S("foo", "bar"), I("n", 123), S("message", "hello world")]]
  {
    var sink := new Sink();
    var log := New(sink);
    var e := log.Info();
    e.Str("foo", "bar");
    e.Int("n", 123);
    assert e.RecordFor("hello world") == [S("level", "info"), S("foo", "bar"), I("n", 123), S("message", "hello world")];
    e.Msg("hello world");
    out := sink.records;
  }

  method WarnExample() returns (out: seq<seq<Entry>>)
    ensures out == [[S("level", "warn"), S("foo", "bar"), S("message", "a warning message")]]
  {
    var sink := new Sink();
    var log := New(sink);
    var e := log.Warn();
    e.Str("foo", "bar");
    assert e.RecordFor("a warning message") == [S("level", "warn"), S("foo", "bar"), S("message", "a warning message")];
    e.Msg("a warning message");
    out := sink.records;
  }

  /** Err writes the error text under "error", before the message. */
  method ErrorExample() returns (out: seq<seq<Entry>>)
    ensures out == [[S("level", "error"), S("error", "some error"), S("message", "error doing something")]]
  {
    var sink := new Sink();
    var log := New(sink);
    var e := log.Error();
    e.Err("some error");
    assert e.RecordFor("error doing something") == [S("level", "error"), S("error", "some error"), S("message", "error doing something")];
    e.Msg("error doing something");
    out := sink.records;
  }

  method WithLevelExample() returns (out: seq<seq<Entry>>)
    ensures out == [[S("level", "info"), S("message", "hello world")]]
  {
    var sink := new Sink();
    var log := New(sink);
    var e := log.WithLevel(Info);
    assert e.RecordFor("hello world") == [S("level", "info"), S("message", "hello world")];
    e.Msg("hello world");
    out := sink.records;
  }

  /** A line written through the logger as a writer: the trailing newline
      is dropped and no level is written. */
  method WriteExample() returns (out: seq<seq<Entry>>, n: nat)
    ensures out == [[S("foo", "bar"), S("message", "hello world")]]
    ensures n == 12
  {
    var sink := new Sink();
    var log := New(sink).With().Str("foo", "bar").ToLogger();
    assert log.context == [S("foo", "bar")];
    assert log.WillPass(NoLevel);
    n := log.Write("hello world\n");
    assert TrimNewline("hello world\n") == "hello world";
    assert Assemble(NoDedup, NoLevel, [S("foo", "bar")], [], [], "hello world") == [S("foo", "bar"), S("message", "hello world")];
    out := sink.records;
  }

  /** Log() writes no level, and Msg("") writes no message. */
  method LogExample() returns (out: seq<seq<Entry>>)
    ensures out == [[S("foo", "bar"), S("bar", "baz")]]
  {
    var sink := new Sink();
    var log := New(sink);
    var e := log.Log();
    e.Str("foo", "bar");
    e.Str("bar", "baz");
    assert e.RecordFor("") == [S("foo", "bar"), S("bar", "baz")];
    e.Msg("");
    out := sink.records;
  }

  /** A sub-object built with Dict(). */
  method EventDictExample() returns (out: seq<seq<Entry>>)
    ensures out == [[S("foo", "bar"), Entry("dict", Obj([S("bar", "baz"), I("n", 1)])), S("message", "hello world")]]
  {
    var sink := new Sink();
    var log := New(sink);
    var e := log.Log();
    e.Str("foo", "bar");
    var d := new Event.Dict();
    d.Str("bar", "baz");
    d.Int("n", 1);
    assert d.buf == [S("bar", "baz"), I("n", 1)];
    assert e.buf == [S("foo", "bar")] && e.Live();
    e.AddDict("dict", d);
    assert e.RecordFor("hello world") == [S("foo", "bar"), Entry("dict", Obj([S("bar", "baz"), I("n", 1)])), S("message", "hello world")];
    e.Msg("hello world");
    out := sink.records;
  }

  /** An array built with Arr(): a string, an integer and a sub-object. */
  method EventArrayExample() returns (out: seq<seq<Entry>>)
    ensures out == [[S("foo", "bar"),
                     Entry("array", Arr([Value.Str("baz"), Value.Int(1), Obj([S("bar", "baz"), I("n", 1)])])),
                     S("message", "hello world")]]
  {
    var sink := new Sink();
    var log := New(sink);
    var e := log.Log();
    e.Str("foo", "bar");
    var a := new Array();
    a.Str("baz");
    a.Int(1);
    var d := new Event.Dict();
    d.Str("bar", "baz");
    d.Int("n", 1);
    assert d.buf == [S("bar", "baz"), I("n", 1)];
    a.Dict(d);
    assert a.items == [Value.Str("baz"), Value.Int(1), Obj([S("bar", "baz"), I("n", 1)])];
    assert e.buf == [S("foo", "bar")] && e.Live();
    e.Array("array", Built(a));
    assert e.RecordFor("hello world") == [S("foo", "bar"),
      Entry("array", Arr([Value.Str("baz"), Value.Int(1), Obj([S("bar", "baz"), I("n", 1)])])),
      S("message", "hello world")];
    e.Msg("hello world");
    out := sink.records;
  }

  /** Users marshal themselves as an array of user objects. */
  method EventArrayObjectExample() returns (out: seq<seq<Entry>>)
    ensures out == [[S("foo", "bar"),
                     Entry("users", Arr([Obj([S("name", "John"), I("age", 35), S("created", Epoch)]),
                                         Obj([S("name", "Bob"), I("age", 55), S("created", Epoch)])])),
                     S("message", "hello world")]]
  {
    var sink := new Sink();
    var log := New(sink);
    var e := log.Log();
    e.Str("foo", "bar");
    var uu := [User("John", 35, Epoch), User("Bob", 55, Epoch)];
    UsersValuesAt(uu);
    assert UsersValues(uu) == [Obj([S("name", "John"), I("age", 35), S("created", Epoch)]),
                               Obj([S("name", "Bob"), I("age", 55), S("created", Epoch)])];
    e.Array("users", UsersArray(uu));
    assert e.RecordFor("hello world") == [S("foo", "bar"),
      Entry("users", Arr([Obj([S("name", "John"), I("age", 35), S("created", Epoch)]),
                          Obj([S("name", "Bob"), I("age", 55), S("created", Epoch)])])),
      S("message", "hello world")];
    e.Msg("hello world");
    out := sink.records;
  }

  /** A user marshals itself as a sub-object. */
  method EventObjectExample() returns (out: seq<seq<Entry>>)
    ensures out == [[S("foo", "bar"), Entry("user", Obj([S("name", "John"), I("age", 35), S("created", Epoch)])),
                     S("message", "hello world")]]
  {
    var sink := new Sink();
    var log := New(sink);
    var e := log.Log();
    e.Str("foo", "bar");
    e.Object("user", UserObject(User("John", 35, Epoch)));
    assert e.RecordFor("hello world") == [S("foo", "bar"), Entry("user", Obj([S("name", "John"), I("age", 35), S("created", Epoch)])),
      S("message", "hello world")];
    e.Msg("hello world");
    out := sink.records;
  }

  /** A price embeds its own "price" field. */
  method EventEmbedObjectExample() returns (out: seq<seq<Entry>>)
    ensures out == [[S("foo", "bar"), S("price", "$64.49"), S("message", "hello world")]]
  {
    var sink := new Sink();
    var log := New(sink);
    var e := log.Log();
    e.Str("foo", "bar");
    PriceExample();
    e.EmbedObject(PriceObject(Price(6449, 2, "$")));
    assert e.RecordFor("hello world") == [S("foo", "bar"), S("price", "$64.49"), S("message", "hello world")];
    e.Msg("hello world");
    out := sink.records;
  }

  /** Map fields come out in ascending key order, whatever order the map
      holds them in. */
  method EventFieldsMapExample() returns (out: seq<seq<Entry>>)
    ensures out == [[S("foo", "bar"), S("bar", "baz"), I("n", 1), S("message", "hello world")]]
  {
    var sink := new Sink();
    var log := New(sink);
    var e := log.Log();
    e.Str("foo", "bar");
    e.FieldsMap([I("n", 1), S("bar", "baz")]);
    MapFieldsSorted();
    assert e.RecordFor("hello world") == [S("foo", "bar"), S("bar", "baz"), I("n", 1), S("message", "hello world")];
    e.Msg("hello world");
    out := sink.records;
  }

  /** List fields come out in list order. */
  method EventFieldsSliceExample() returns (out: seq<seq<Entry>>)
    ensures out == [[S("foo", "bar"), S("bar", "baz"), I("n", 1), S("message", "hello world")]]
  {
    var sink := new Sink();
    var log := New(sink);
    var e := log.Log();
    e.Str("foo", "bar");
    e.Fields([S("bar", "baz"), I("n", 1)]);
    assert e.RecordFor("hello world") == [S("foo", "bar"), S("bar", "baz"), I("n", 1), S("message", "hello world")];
    e.Msg("hello world");
    out := sink.records;
  }

  // ---------------------------------------------------------------------
  // Context fields

  method ContextDictExample() returns (out: seq<seq<Entry>>)
    ensures out == [[S("foo", "bar"), Entry("dict", Obj([S("bar", "baz"), I("n", 1)])), S("message", "hello world")]]
  {
    var sink := new Sink();
    var d := new Event.Dict();
    d.Str("bar", "baz");
    d.Int("n", 1);
    assert d.buf == [S("bar", "baz"), I("n", 1)];
    var log := New(sink).With().Str("foo", "bar").Dict("dict", d).ToLogger();
    assert log.context == [S("foo", "bar"), Entry("dict", Obj([S("bar", "baz"), I("n", 1)]))];
    assert log.sink == sink && log.hooks == [] && log.WillPass(NoLevel);
    LogMsg(log, "hello world");
    assert Assemble(NoDedup, NoLevel, log.context, [], [], "hello world") == [S("foo", "bar"), Entry("dict", Obj([S("bar", "baz"), I("n", 1)])), S("message", "hello world")];
    out := sink.records;
  }

  method ContextArrayExample() returns (out: seq<seq<Entry>>)
    ensures out == [[S("foo", "bar"), Entry("array", Arr([Value.Str("baz"), Value.Int(1)])), S("message", "hello world")]]
  {
    var sink := new Sink();
    var a := new Array();
    a.Str("baz");
    a.Int(1);
    assert ArrayItems(Built(a)) == [Value.Str("baz"), Value.Int(1)];
    var log := New(sink).With().Str("foo", "bar").Array("array", Built(a)).ToLogger();
    assert log.context == [S("foo", "bar"), Entry("array", Arr([Value.Str("baz"), Value.Int(1)]))];
    assert log.sink == sink && log.hooks == [] && log.WillPass(NoLevel);
    LogMsg(log, "hello world");
    assert Assemble(NoDedup, NoLevel, log.context, [], [], "hello world") == [S("foo", "bar"), Entry("array", Arr([Value.Str("baz"), Value.Int(1)])), S("message", "hello world")];
    out := sink.records;
  }

  method ContextArrayObjectExample() returns (out: seq<seq<Entry>>)
    ensures out == [[S("foo", "bar"),
                     Entry("users", Arr([Obj([S("name", "John"), I("age", 35), S("created", Epoch)]),
                                         Obj([S("name", "Bob"), I("age", 55), S("created", Epoch)])])),
                     S("message", "hello world")]]
  {
    var sink := new Sink();
    var uu := [User("John", 35, Epoch), User("Bob", 55, Epoch)];
    UsersValuesAt(uu);
    assert ArrayItems(UsersArray(uu)) == [Obj([S("name", "John"), I("age", 35), S("created", Epoch)]),
                                          Obj([S("name", "Bob"), I("age", 55), S("created", Epoch)])];
    var log := New(sink).With().Str("foo", "bar").Array("users", UsersArray(uu)).ToLogger();
    assert log.context == [S("foo", "bar"), Entry("users", Arr([Obj([S("name", "John"), I("age", 35), S("created", Epoch)]), Obj([S("name", "Bob"), I("age", 55), S("created", Epoch)])]))];
    assert log.sink == sink && log.hooks == [] && log.WillPass(NoLevel);
    LogMsg(log, "hello world");
    assert Assemble(NoDedup, NoLevel, log.context, [], [], "hello world") == [S("foo", "bar"), Entry("users", Arr([Obj([S("name", "John"), I("age", 35), S("created", Epoch)]), Obj([S("name", "Bob"), I("age", 55), S("created", Epoch)])])), S("message", "hello world")];
    out := sink.records;
  }

  method ContextObjectExample() returns (out: seq<seq<Entry>>)
    ensures out == [[S("foo", "bar"), Entry("user", Obj([S("name", "John"), I("age", 35), S("created", Epoch)])),
                     S("message", "hello world")]]
  {
    var sink := new Sink();
    var log := New(sink).With().Str("foo", "bar").Object("user", UserObject(User("John", 35, Epoch))).ToLogger();
    assert log.context == [S("foo", "bar"), Entry("user", Obj([S("name", "John"), I("age", 35), S("created", Epoch)]))];
    assert log.sink == sink && log.hooks == [] && log.WillPass(NoLevel);
    LogMsg(log, "hello world");
    assert Assemble(NoDedup, NoLevel, log.context, [], [], "hello world") == [S("foo", "bar"), Entry("user", Obj([S("name", "John"), I("age", 35), S("created", Epoch)])), S("message", "hello world")];
    out := sink.records;
  }

  method ContextEmbedObjectExample() returns (out: seq<seq<Entry>>)
    ensures out == [[S("foo", "bar"), S("price", "$64.49"), S("message", "hello world")]]
  {
    var sink := new Sink();
    PriceExample();
    var log := New(sink).With().Str("foo", "bar").EmbedObject(PriceObject(Price(6449, 2, "$"))).ToLogger();
    assert log.context == [S("foo", "bar"), S("price", "$64.49")];
    assert log.sink == sink && log.hooks == [] && log.WillPass(NoLevel);
    LogMsg(log, "hello world");
    assert Assemble(NoDedup, NoLevel, log.context, [], [], "hello world") == [S("foo", "bar"), S("price", "$64.49"), S("message", "hello world")];
    out := sink.records;
  }

  method ContextFieldsMapExample() returns (out: seq<seq<Entry>>)
    ensures out == [[S("foo", "bar"), S("bar", "baz"), I("n", 1), S("message", "hello world")]]
  {
    var sink := new Sink();
    MapFieldsSorted();
    var log := New(sink).With().Str("foo", "bar").FieldsMap([I("n", 1), S("bar", "baz")]).ToLogger();
    assert log.context == [S("foo", "bar"), S("bar", "baz"), I("n", 1)];
    assert log.sink == sink && log.hooks == [] && log.WillPass(NoLevel);
    LogMsg(log, "hello world");
    assert Assemble(NoDedup, NoLevel, log.context, [], [], "hello world") == [S("foo", "bar"), S("bar", "baz"), I("n", 1), S("message", "hello world")];
    out := sink.records;
  }

  method ContextFieldsSliceExample() returns (out: seq<seq<Entry>>)
    ensures out == [[S("foo", "bar"), S("bar", "baz"), I("n", 1), S("message", "hello world")]]
  {
    var sink := new Sink();
    var log := New(sink).With().Str("foo", "bar").Fields([S("bar", "baz"), I("n", 1)]).ToLogger();
    assert log.context == [S("foo", "bar"), S("bar", "baz"), I("n", 1)];
    assert log.sink == sink && log.hooks == [] && log.WillPass(NoLevel);
    LogMsg(log, "hello world");
    assert Assemble(NoDedup, NoLevel, log.context, [], [], "hello world") == [S("foo", "bar"), S("bar", "baz"), I("n", 1), S("message", "hello world")];
    out := sink.records;
  }

  // ---------------------------------------------------------------------
  // DeDup and DeDupDeep: the dictionary and array examples use these
  // values.

  function DictEntry(foo: string, n: int): Entry
  {
    Entry("dict", Obj([S("foo", foo), I("n", n)]))
  }

  function ArrayEntry(first: string, foo: string, n: int): Entry
  {
    Entry("array", Arr([Value.Str(first), Value.Int(1), Obj([S("foo", foo), I("n", n)])]))
  }

  /** Dict().Str("foo", foo).Int("n", n). */
  method NewDict(foo: string, n: int) returns (d: Event)
    ensures fresh(d) && d.Live() && d.buf == [S("foo", foo), I("n", n)]
  {
    d := new Event.Dict();
    d.Str("foo", foo);
    d.Int("n", n);
  }

  /** Arr().Str(first).Int(1).Dict(Dict().Str("foo", foo).Int("n", n)). */
  method NewArray(first: string, foo: string, n: int) returns (a: Array)
    ensures fresh(a) && Arr(a.items) == ArrayEntry(first, foo, n).value
  {
    a := new Array();
    a.Str(first);
    a.Int(1);
    var d := NewDict(foo, n);
    a.Dict(d);
  }

  method ContextDeDupExample() returns (out: seq<seq<Entry>>)
    ensures out == [[S("level", "info"), S("foo", "baz"), S("message", "hello world")]]
  {
    var sink := new Sink();
    var c := New(sink).With().Str("foo", "bar").Str("foo", "baz");
    assert c.fields == [S("foo", "bar"), S("foo", "baz")];
    CollapseTwice("foo", Value.Str("bar"), Value.Str("baz"));
    var log := c.DeDup().ToLogger();
    InfoMsg(log, "hello world");
    assert Assemble(NoDedup, Info, log.context, [], [], "hello world") == [S("level", "info"), S("foo", "baz"), S("message", "hello world")];
    out := sink.records;
  }

  method ContextDeDupUnusedExample() returns (out: seq<seq<Entry>>)
    ensures out == [[S("level", "info"), S("foo", "bar"), S("foo", "baz"), S("message", "hello world")]]
  {
    var sink := new Sink();
    var log := New(sink).With().Str("foo", "bar").Str("foo", "baz").ToLogger();
    assert log.context == [S("foo", "bar"), S("foo", "baz")];
    InfoMsg(log, "hello world");
    assert Assemble(NoDedup, Info, log.context, [], [], "hello world") == [S("level", "info"), S("foo", "bar"), S("foo", "baz"), S("message", "hello world")];
    out := sink.records;
  }

  method ContextDeDupEmptyExample() returns (out: seq<seq<Entry>>)
    ensures out == [[S("level", "info"), S("message", "hello world")]]
  {
    var sink := new Sink();
    var log := New(sink).With().DeDup().ToLogger();
    assert log.context == [];
    InfoMsg(log, "hello world");
    assert Assemble(NoDedup, Info, log.context, [], [], "hello world") == [S("level", "info"), S("message", "hello world")];
    out := sink.records;
  }

  /** New(sink).With().Dict("dict", {foo: bar, n: 1}).Dict("dict", {foo:
      baz, n: 2}), with the given dedup mode, as a logger. */
  method DictLogger(sink: Sink, mode: Mode) returns (log: Logger)
    ensures log == New(sink).(context := Apply(mode, [DictEntry("bar", 1), DictEntry("baz", 2)]))
  {
    var d1 := NewDict("bar", 1);
    var d2 := NewDict("baz", 2);
    var c := New(sink).With().Dict("dict", d1).Dict("dict", d2);
    assert c.fields == [DictEntry("bar", 1), DictEntry("baz", 2)];
    log := c.(mode := mode).ToLogger();
  }

  /** Of the two formats the example accepts, the first. */
  method ContextDeDupDictionaryExample() returns (out: seq<seq<Entry>>)
    ensures out == [[S("level", "info"), DictEntry("baz", 2), S("message", "hello world")]]
  {
    var sink := new Sink();
    var log := DictLogger(sink, Shallow);
    CollapseTwice("dict", DictEntry("bar", 1).value, DictEntry("baz", 2).value);
    InfoMsg(log, "hello world");
    assert Assemble(NoDedup, Info, log.context, [], [], "hello world") == [S("level", "info"), DictEntry("baz", 2), S("message", "hello world")];
    out := sink.records;
  }

  /** Of the two formats the example accepts, the second: the context is
      rewritten on its own, so the level still comes first. */
  method ContextDeDupArrayExample() returns (out: seq<seq<Entry>>)
    ensures out == [[S("level", "info"), ArrayEntry("baz", "baz", 2), S("message", "hello world")]]
  {
    out := DeepArrayContext();
  }

  /** New(sink).With().Array("array", [bar, 1, {foo: bar, n: 1}])
      .Array("array", [baz, 1, {foo: baz, n: 2}]).DeDupDeep().Logger(). */
  method ArrayPairLogger(sink: Sink) returns (log: Logger)
    ensures log == New(sink).(context := [ArrayEntry("baz", "baz", 2)])
  {
    var a1 := NewArray("bar", "bar", 1);
    var a2 := NewArray("baz", "baz", 2);
    var c := New(sink).With().Array("array", Built(a1)).Array("array", Built(a2));
    assert c.fields == [ArrayEntry("bar", "bar", 1), ArrayEntry("baz", "baz", 2)];
    CanonicalArray("bar", "bar", 1);
    CanonicalArray("baz", "baz", 2);
    DeepPair(ArrayEntry("bar", "bar", 1), ArrayEntry("baz", "baz", 2));
    log := c.DeDupDeep().ToLogger();
  }

  /** New(sink).With().Array("array", [bar, 1, {foo: bar, n: 1}])
      .DeDupDeep().Logger(). */
  method ArrayLogger(sink: Sink) returns (log: Logger)
    ensures log == New(sink).(context := [ArrayEntry("bar", "bar", 1)])
  {
    var a1 := NewArray("bar", "bar", 1);
    var c := New(sink).With().Array("array", Built(a1));
    assert c.fields == [ArrayEntry("bar", "bar", 1)];
    CanonicalArray("bar", "bar", 1);
    DeepSingle(ArrayEntry("bar", "bar", 1));
    log := c.DeDupDeep().ToLogger();
  }

  /** The logger of the two context array examples: two arrays under one
      key, then DeDupDeep. */
  method DeepArrayContext() returns (out: seq<seq<Entry>>)
    ensures out == [[S("level", "info"), ArrayEntry("baz", "baz", 2), S("message", "hello world")]]
  {
    var sink := new Sink();
    var log := ArrayPairLogger(sink);
    InfoMsg(log, "hello world");
    assert Assemble(NoDedup, Info, log.context, [], [], "hello world") == [S("level", "info"), ArrayEntry("baz", "baz", 2), S("message", "hello world")];
    out := sink.records;
  }

  method ContextDeDupDeepExample() returns (out: seq<seq<Entry>>)
    ensures out == [[S("level", "info"), S("foo", "baz"), S("message", "hello world")]]
  {
    var sink := new Sink();
    var c := New(sink).With().Str("foo", "bar").Str("foo", "baz");
    assert c.fields == [S("foo", "bar"), S("foo", "baz")];
    DeepPair(S("foo", "bar"), S("foo", "baz"));
    var log := c.DeDupDeep().ToLogger();
    InfoMsg(log, "hello world");
    assert Assemble(NoDedup, Info, log.context, [], [], "hello world") == [S("level", "info"), S("foo", "baz"), S("message", "hello world")];
    out := sink.records;
  }

  method ContextDeDupDeepUnusedExample() returns (out: seq<seq<Entry>>)
    ensures out == [[S("level", "info"), S("foo", "bar"), S("foo", "baz"), S("message", "hello world")]]
  {
    out := ContextDeDupUnusedExample();
  }

  method ContextDeDupDeepEmptyExample() returns (out: seq<seq<Entry>>)
    ensures out == [[S("level", "info"), S("message", "hello world")]]
  {
    var sink := new Sink();
    var log := New(sink).With().DeDupDeep().ToLogger();
    assert log.context == [];
    InfoMsg(log, "hello world");
    assert Assemble(NoDedup, Info, log.context, [], [], "hello world") == [S("level", "info"), S("message", "hello world")];
    out := sink.records;
  }

  /** Of the two formats the example accepts, the first. */
  method ContextDeDupDeepDictionaryExample() returns (out: seq<seq<Entry>>)
    ensures out == [[S("level", "info"), DictEntry("baz", 2), S("message", "hello world")]]
  {
    var sink := new Sink();
    var log := DeepDictLogger(sink);
    InfoMsg(log, "hello world");
    assert Assemble(NoDedup, Info, log.context, [], [], "hello world") == [S("level", "info"), DictEntry("baz", 2), S("message", "hello world")];
    out := sink.records;
  }

  /** The two dictionaries under one key, then DeDupDeep: one dictionary,
      the second. */
  method DeepDictLogger(sink: Sink) returns (log: Logger)
    ensures log == New(sink).(context := [DictEntry("baz", 2)])
  {
    log := DictLogger(sink, Deep);
    CanonicalDict("bar", 1);
    CanonicalDict("baz", 2);
    DeepPair(DictEntry("bar", 1), DictEntry("baz", 2));
  }

  /** Of the two formats the example accepts, the second. */
  method ContextDeDupDeepArrayExample() returns (out: seq<seq<Entry>>)
    ensures out == [[S("level", "info"), ArrayEntry("baz", "baz", 2), S("message", "hello world")]]
  {
    out := DeepArrayContext();
  }

  // Event-level dedup: the rewrite covers the whole record, the level and
  // the message included.

  /** info().Str(k, v3).<mode>().Msg("hello world") on a logger whose
      context is the two entries k: v1 and k: v2. */
  method ThreeWrites(k: string, v1: Value, v2: Value, v3: Value, mode: Mode) returns (out: seq<seq<Entry>>)
    ensures out == [Apply(mode, [Info0, Entry(k, v1), Entry(k, v2), Entry(k, v3), Hello])]
  {
    var sink := new Sink();
    var log := New(sink).With().Fields([Entry(k, v1), Entry(k, v2)]).ToLogger();
    var e := log.Info();
    e.Add(Entry(k, v3));
    if mode == Shallow {
      e.DeDup();
    } else if mode == Deep {
      e.DeDupDeep();
    }
    assert e.buf + [] + MessagePart("hello world") == [Info0, Entry(k, v1), Entry(k, v2), Entry(k, v3), Hello];
    e.Msg("hello world");
    out := sink.records;
  }

  method EventDeDupExample() returns (out: seq<seq<Entry>>)
    ensures out == [[S("level", "info"), S("foo", "bam"), S("message", "hello world")]]
  {
    out := ThreeWrites("foo", Value.Str("bar"), Value.Str("baz"), Value.Str("bam"), Shallow);
    ShallowThree(S("foo", "bar"), S("foo", "baz"), S("foo", "bam"));
  }

  method EventDeDupUnusedExample() returns (out: seq<seq<Entry>>)
    ensures out == [[S("level", "info"), S("foo", "bar"), S("foo", "baz"), S("message", "hello world")]]
  {
    var sink := new Sink();
    var log := New(sink).With().Str("foo", "bar").ToLogger();
    var e := log.Info();
    e.Str("foo", "baz");
    assert e.RecordFor("hello world") == [S("level", "info"), S("foo", "bar"), S("foo", "baz"), S("message", "hello world")];
    e.Msg("hello world");
    out := sink.records;
  }

  method EventDeDupEmptyExample() returns (out: seq<seq<Entry>>)
    ensures out == [[S("level", "info"), S("message", "hello world")]]
  {
    var sink := new Sink();
    var log := New(sink).With().ToLogger();
    var e := log.Info();
    e.DeDup();
    assert e.buf + [] + MessagePart("hello world") == [Info0, Hello];
    ShallowBare();
    e.Msg("hello world");
    out := sink.records;
  }

  /** Of the two formats the example accepts, the first. */
  method EventDeDupDictionaryExample() returns (out: seq<seq<Entry>>)
    ensures out == [[S("level", "info"), DictEntry("bam", 3), S("message", "hello world")]]
  {
    out := EventDicts(Shallow);
    ShallowThree(DictEntry("bar", 1), DictEntry("baz", 2), DictEntry("bam", 3));
  }

  /** The two event dictionary examples: a context with two dictionaries
      under one key, then an event adding a third. */
  method EventDicts(mode: Mode) returns (out: seq<seq<Entry>>)
    ensures out == [Apply(mode, [Info0, DictEntry("bar", 1), DictEntry("baz", 2), DictEntry("bam", 3), Hello])]
  {
    var sink := new Sink();
    var log := DictLogger(sink, NoDedup);
    var e := log.Info();
    var d3 := NewDict("bam", 3);
    e.AddDict("dict", d3);
    if mode == Shallow {
      e.DeDup();
    } else if mode == Deep {
      e.DeDupDeep();
    }
    assert e.buf + [] + MessagePart("hello world") == [Info0, DictEntry("bar", 1), DictEntry("baz", 2), DictEntry("bam", 3), Hello];
    e.Msg("hello world");
    out := sink.records;
  }

  /** Of the two formats the example accepts, the first: the event's deep
      rewrite sorts the whole record. */
  method EventDeDupArrayExample() returns (out: seq<seq<Entry>>)
    ensures out == [[ArrayEntry("baz", "baz", 2), S("level", "info"), S("message", "hello world")]]
  {
    out := DeepArrayEvent();
  }

  /** The two event array examples: a deep context holding one array, then
      an event adding a second array under the same key, and DeDupDeep. */
  method DeepArrayEvent() returns (out: seq<seq<Entry>>)
    ensures out == [[ArrayEntry("baz", "baz", 2), S("level", "info"), S("message", "hello world")]]
  {
    var sink := new Sink();
    var log := ArrayLogger(sink);
    var e := SecondArrayDeep(log);
    assert e.buf + HooksFields(e.hooks, e.level, "hello world") + MessagePart("hello world")
        == [Info0, ArrayEntry("bar", "bar", 1), ArrayEntry("baz", "baz", 2), Hello];
    CanonicalArray("bar", "bar", 1);
    CanonicalArray("baz", "baz", 2);
    DeepTwoWrites(ArrayEntry("bar", "bar", 1), ArrayEntry("baz", "baz", 2));
    e.Msg("hello world");
    out := sink.records;
  }

  /** log.Info().Array("array", [baz, 1, {foo: baz, n: 2}]).DeDupDeep(),
      before its Msg. */
  method SecondArrayDeep(log: Logger) returns (e: Event)
    requires log == New(log.sink).(context := [ArrayEntry("bar", "bar", 1)])
    ensures fresh(e) && e.Live() && e.mode == Deep
    ensures e.sink == log.sink && e.level == Info && e.hooks == []
    ensures e.buf == [Info0, ArrayEntry("bar", "bar", 1), ArrayEntry("baz", "baz", 2)]
  {
    e := log.Info();
    var a2 := NewArray("baz", "baz", 2);
    e.Array("array", Built(a2));
    e.DeDupDeep();
  }

  method EventDeDupDeepExample() returns (out: seq<seq<Entry>>)
    ensures out == [[S("foo", "bam"), S("level", "info"), S("message", "hello world")]]
  {
    out := ThreeWrites("foo", Value.Str("bar"), Value.Str("baz"), Value.Str("bam"), Deep);
    DeepThree(S("foo", "bar"), S("foo", "baz"), S("foo", "bam"));
  }

  method EventDeDupDeepUnusedExample() returns (out: seq<seq<Entry>>)
    ensures out == [[S("level", "info"), S("foo", "bar"), S("foo", "baz"), S("message", "hello world")]]
  {
    out := EventDeDupUnusedExample();
  }

  method EventDeDupDeepEmptyExample() returns (out: seq<seq<Entry>>)
    ensures out == [[S("level", "info"), S("message", "hello world")]]
  {
    var sink := new Sink();
    var log := New(sink).With().ToLogger();
    var e := log.Info();
    e.DeDupDeep();
    assert e.buf + [] + MessagePart("hello world") == [Info0, Hello];
    DeepBare();
    e.Msg("hello world");
    out := sink.records;
  }

  /** Of the two formats the example accepts, the second: the deep rewrite
      sorts "dict" before "level". */
  method EventDeDupDeepDictionaryExample() returns (out: seq<seq<Entry>>)
    ensures out == [[DictEntry("bam", 3), S("level", "info"), S("message", "hello world")]]
  {
    out := EventDicts(Deep);
    DeepThree(DictEntry("bar", 1), DictEntry("baz", 2), DictEntry("bam", 3));
  }

  /** Of the two formats the example accepts, the first. */
  method EventDeDupDeepArrayExample() returns (out: seq<seq<Entry>>)
    ensures out == [[ArrayEntry("baz", "baz", 2), S("level", "info"), S("message", "hello world")]]
  {
    out := DeepArrayEvent();
  }

  // ---------------------------------------------------------------------
  // The rewrites of the example records, computed one entry at a time.

  /** Collapse takes one more entry. */
  lemma CollapseStep(es: seq<Entry>, e: Entry, acc: seq<Entry>)
    requires Collapse(es) == acc
    ensures Collapse(es + [e]) == Put(acc, e)
  {
    assert (es + [e])[..|es|] == es;
  }

  lemma CanonicalDict(foo: string, n: int)
    ensures Canonical(DictEntry(foo, n).value)
  {
    var fs := [S("foo", foo), I("n", n)];
    assert Less("foo", "n");
    assert Ordered(fs);
    CanonicalValuesAt(fs);
  }

  lemma CanonicalArray(first: string, foo: string, n: int)
    ensures Canonical(ArrayEntry(first, foo, n).value)
  {
    CanonicalDict(foo, n);
    var vs := [Value.Str(first), Value.Int(1), DictEntry(foo, n).value];
    CanonicalItemsAt(vs);
  }

  const Info0 := Entry("level", Value.Str("info"))
  const Hello := Entry("message", Value.Str("hello world"))

  /** A key the examples write, other than "level" and "message". */
  predicate Plain(e: Entry)
  {
    e.key != "level" && e.key != "message"
  }

  lemma ShallowBare()
    ensures Collapse([Info0, Hello]) == [Info0, Hello]
  {
    CollapseStep([], Info0, []);
    assert [Info0, Hello] == [Info0] + [Hello];
    CollapseStep([Info0], Hello, [Info0]);
  }

  /** Three writes of one key between the level and the message leave the
      last one in the first one's place. */
  lemma ShallowThree(e1: Entry, e2: Entry, e3: Entry)
    requires Plain(e1) && e2.key == e1.key && e3.key == e1.key
    ensures Collapse([Info0, e1, e2, e3, Hello]) == [Info0, e3, Hello]
  {
    ShallowTwo(e1, e2);
    assert Collapse([Info0, e1, e2]) == [Info0, e2];
    assert [Info0, e1, e2] + [e3] == [Info0, e1, e2, e3];
    CollapseStep([Info0, e1, e2], e3, [Info0, e2]);
    PutOver([Info0], e2, e3);
    assert [Info0, e1, e2, e3] + [Hello] == [Info0, e1, e2, e3, Hello];
    CollapseStep([Info0, e1, e2, e3], Hello, [Info0, e3]);
    PutAfter([Info0], e3, Hello);
  }

  /** Two writes of one key after the level: the second wins; the message
      then goes last. */
  lemma ShallowTwo(e1: Entry, e2: Entry)
    requires Plain(e1) && e2.key == e1.key
    ensures Collapse([Info0, e1, e2]) == [Info0, e2]
    ensures Collapse([Info0, e1, e2, Hello]) == [Info0, e2, Hello]
  {
    CollapseStep([], Info0, []);
    assert [] + [Info0] == [Info0];
    assert [Info0] + [e1] == [Info0, e1];
    CollapseStep([Info0], e1, [Info0]);
    PutAfter([], Info0, e1);
    assert [Info0, e1] + [e2] == [Info0, e1, e2];
    CollapseStep([Info0, e1], e2, [Info0, e1]);
    PutOver([Info0], e1, e2);
    assert [Info0, e1, e2] + [Hello] == [Info0, e1, e2, Hello];
    CollapseStep([Info0, e1, e2], Hello, [Info0, e2]);
    PutAfter([Info0], e2, Hello);
  }

  /** Put of a new key past a prefix of other keys appends it. */
  lemma {:induction false} PutAfter(pre: seq<Entry>, x: Entry, e: Entry)
    requires x.key != e.key && forall p | p in pre :: p.key != e.key
    ensures Put(pre + [x], e) == pre + [x, e]
    decreases |pre|
  {
    if pre == [] {
      assert [x][1..] == [];
    } else {
      assert (pre + [x])[1..] == pre[1..] + [x];
      PutAfter(pre[1..], x, e);
    }
  }

  /** Put of the last entry's key past a prefix of other keys replaces it. */
  lemma {:induction false} PutOver(pre: seq<Entry>, x: Entry, e: Entry)
    requires x.key == e.key && forall p | p in pre :: p.key != e.key
    ensures Put(pre + [x], e) == pre + [e]
    decreases |pre|
  {
    if pre == [] {
      assert [x][1..] == [];
    } else {
      assert (pre + [x])[1..] == pre[1..] + [x];
      PutOver(pre[1..], x, e);
    }
  }

  /** An entry whose key sorts before "level" goes first. */
  lemma SortBeforeLevel(e: Entry)
    requires Less(e.key, "level")
    ensures SortByKey([Info0, e, Hello]) == [e, Info0, Hello]
  {
    assert Less("level", "message");
    LessTransitive(e.key, "level", "message");
    LessAsymmetric(e.key, "message");
    assert [Info0, e, Hello][1..] == [e, Hello];
    assert [e, Hello][1..] == [Hello];
    assert SortByKey([Hello]) == [Hello];
    assert SortByKey([e, Hello]) == [e, Hello];
    assert Insert(Info0, [Hello]) == [Info0, Hello];
    assert Insert(Info0, [e, Hello]) == [e, Info0, Hello];
  }

  lemma DeepBare()
    ensures CollapseDeep([Info0, Hello]) == [Info0, Hello]
  {
    ShallowBare();
    CanonicalValuesAt([Info0, Hello]);
    CollapseDeepOfFlat([Info0, Hello]);
    assert Less("level", "message");
    KeyOrder.OrderedCons(Info0, [Hello]);
    SortOfOrdered([Info0, Hello]);
  }

  lemma DeepThree(e1: Entry, e2: Entry, e3: Entry)
    requires Plain(e1) && e2.key == e1.key && e3.key == e1.key
    requires Canonical(e1.value) && Canonical(e2.value) && Canonical(e3.value)
    requires Less(e1.key, "level")
    ensures CollapseDeep([Info0, e1, e2, e3, Hello]) == [e3, Info0, Hello]
  {
    var raw := [Info0, e1, e2, e3, Hello];
    CanonicalValuesAt(raw);
    CollapseDeepOfFlat(raw);
    ShallowThree(e1, e2, e3);
    SortBeforeLevel(e3);
  }

  lemma DeepTwoWrites(e1: Entry, e2: Entry)
    requires Plain(e1) && e2.key == e1.key
    requires Canonical(e1.value) && Canonical(e2.value)
    requires Less(e1.key, "level")
    ensures CollapseDeep([Info0, e1, e2, Hello]) == [e2, Info0, Hello]
  {
    var raw := [Info0, e1, e2, Hello];
    CanonicalValuesAt(raw);
    CollapseDeepOfFlat(raw);
    ShallowTwo(e1, e2);
    SortBeforeLevel(e2);
  }

  /** A context with one entry, in canonical form, is its own deep rewrite. */
  lemma DeepSingle(e: Entry)
    requires Canonical(e.value)
    ensures CollapseDeep([e]) == [e]
  {
    CanonicalValuesAt([e]);
    CollapseDeepOfFlat([e]);
    CollapseStep([], e, []);
    assert [] + [e] == [e];
  }

  /** Two writes of one key, in canonical form: the deep rewrite keeps the
      second. */
  lemma DeepPair(e1: Entry, e2: Entry)
    requires e2.key == e1.key && Canonical(e1.value) && Canonical(e2.value)
    ensures CollapseDeep([e1, e2]) == [e2]
  {
    CanonicalValuesAt([e1, e2]);
    CollapseDeepOfFlat([e1, e2]);
    CollapseTwice(e1.key, e1.value, e2.value);
    assert [Entry(e1.key, e1.value), Entry(e1.key, e2.value)] == [e1, e2];
  }

  /** The map {n: 1, bar: baz} comes out as bar, then n. */
  lemma MapFieldsSorted()
    ensures SortByKey([I("n", 1), S("bar", "baz")]) == [S("bar", "baz"), I("n", 1)]
  {
    assert Less("bar", "n");
    assert [I("n", 1), S("bar", "baz")][1..] == [S("bar", "baz")];
    assert SortByKey([S("bar", "baz")]) == [S("bar", "baz")];
    assert Insert(I("n", 1), [S("bar", "baz")]) == [S("bar", "baz")] + Insert(I("n", 1), []);
  }
}
