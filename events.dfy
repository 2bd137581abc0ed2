/** Events, arrays and the sink.

    An Event is a single-owner buffer of entries.  It starts with the level
    entry and the logger's context, receives the call's own fields, and is
    finished by Msg, which runs the hooks, appends the message, applies the
    dedup mode the event asked for and writes the record to the sink exactly
    once.  A disabled event (one the level gate or the sampler dropped)
    ignores every call.  The value types of the examples (Price, User, Users)
    and the two hooks write into events and arrays through the methods at
    the end of this module. */
module Events {
  import opened Record
  import opened Levels
  import opened Dedup
  import opened KeyOrder
  import opened Helpers
  import opened Assembly

  /** The destination of finished records: one write per record. */
  class Sink {
    var records: seq<seq<Entry>>

    constructor ()
      ensures records == []
    {
      records := [];
    }

    method Write(r: seq<Entry>)
      modifies this
      ensures records == old(records) + [r]
    {
      records := records + [r];
    }
  }

  class Event {
    var buf: seq<Entry>
    var sent: bool
    var mode: Mode
    const enabled: bool
    const level: Level
    const hooks: seq<Hook>
    const sink: Sink?

    /** The event still takes fields: it is enabled and not yet sent. */
    predicate Live()
      reads this
    {
      enabled && !sent
    }

    /** A live event for a call at `level`, seeded with the level entry and
        the logger's context. */
    constructor Start(sink: Sink?, level: Level, hooks: seq<Hook>, context: seq<Entry>)
      ensures enabled && !sent && mode == NoDedup
      ensures this.level == level && this.hooks == hooks && this.sink == sink
      ensures buf == LevelPrefix(level) + context
    {
      this.sink := sink;
      this.level := level;
      this.hooks := hooks;
      enabled := true;
      sent := false;
      mode := NoDedup;
      buf := LevelPrefix(level) + context;
    }

    /** Dict(): an empty sub-object builder with no level, no hooks and no
        sink. */
    constructor Dict()
      ensures enabled && !sent && mode == NoDedup
      ensures level == NoLevel && hooks == [] && sink == null && buf == []
    {
      sink := null;
      level := NoLevel;
      hooks := [];
      enabled := true;
      sent := false;
      mode := NoDedup;
      buf := [];
    }

    /** The disabled event a dropped call yields. */
    constructor Off()
      ensures !enabled && !sent && mode == NoDedup
      ensures level == Disabled && hooks == [] && sink == null && buf == []
    {
      sink := null;
      level := Disabled;
      hooks := [];
      enabled := false;
      sent := false;
      mode := NoDedup;
      buf := [];
    }

    /** Append one entry, if the event is live. */
    method Add(e: Entry)
      modifies this`buf
      ensures buf == if old(Live()) then old(buf) + [e] else old(buf)
    {
      if Live() {
        buf := buf + [e];
      }
    }

    method Str(key: string, val: string)
      modifies this`buf
      ensures buf == if old(Live()) then old(buf) + [Entry(key, Value.Str(val))] else old(buf)
    {
      Add(Entry(key, Value.Str(val)));
    }

    method Int(key: string, val: int)
      modifies this`buf
      ensures buf == if old(Live()) then old(buf) + [Entry(key, Value.Int(val))] else old(buf)
    {
      Add(Entry(key, Value.Int(val)));
    }

    /** Err(err): the error's text under the "error" key. */
    method Err(err: string)
      modifies this`buf
      ensures buf == if old(Live()) then old(buf) + [Entry(ErrorFieldName, Value.Str(err))] else old(buf)
    {
      Add(Entry(ErrorFieldName, Value.Str(err)));
    }

    /** Dict(key, d): the sub-object built in d, under key. */
    method AddDict(key: string, d: Event)
      modifies this`buf
      ensures buf == if old(Live()) then old(buf) + [Entry(key, Obj(old(d.buf)))] else old(buf)
    {
      Add(Entry(key, Obj(d.buf)));
    }

    /** Fields given as a key/value list: appended in list order. */
    method Fields(fs: seq<Entry>)
      modifies this`buf
      ensures buf == if old(Live()) then old(buf) + fs else old(buf)
    {
      if Live() {
        buf := buf + fs;
      }
    }

    /** Fields given as a map (entries with distinct keys, in no particular
        order): appended in ascending key order. */
    method FieldsMap(m: seq<Entry>)
      requires UniqueKeys(m)
      modifies this`buf
      ensures buf == if old(Live()) then old(buf) + SortByKey(m) else old(buf)
    {
      if Live() {
        buf := buf + SortByKey(m);
      }
    }

    /** Object(key, m): the fields m marshals, as a sub-object under key. */
    method Object(key: string, m: ObjectMarshaler)
      requires m.PriceObject? ==> Denominator(m.p.prec) != 0
      modifies this`buf
      ensures buf == if old(Live()) then old(buf) + [Entry(key, Obj(ObjectFields(m)))] else old(buf)
    {
      var d := new Event.Dict();
      MarshalObject(m, d);
      assert d.buf == ObjectFields(m);
      Add(Entry(key, Obj(d.buf)));
    }

    /** EmbedObject(m): the fields m marshals, written straight into this
        event. */
    method EmbedObject(m: ObjectMarshaler)
      requires m.PriceObject? ==> Denominator(m.p.prec) != 0
      modifies this`buf
      ensures buf == if old(Live()) then old(buf) + ObjectFields(m) else old(buf)
    {
      MarshalObject(m, this);
    }

    /** Array(key, src): the elements src yields, as an array under key. */
    method Array(key: string, src: ArraySource)
      modifies this`buf
      ensures buf == if old(Live()) then old(buf) + [Entry(key, Arr(old(ArrayItems(src))))] else old(buf)
    {
      match src
      case Built(a) =>
        Add(Entry(key, Arr(a.items)));
      case UsersArray(uu) =>
        var a := new Array();
        MarshalUsers(uu, a);
        assert a.items == UsersValues(uu);
        Add(Entry(key, Arr(a.items)));
    }

    /** DeDup(): collapse duplicate keys when the record is written. */
    method DeDup()
      modifies this`mode
      ensures mode == if old(Live()) then Shallow else old(mode)
    {
      if Live() {
        mode := Shallow;
      }
    }

    /** DeDupDeep(): collapse duplicate keys at every depth when the record
        is written. */
    method DeDupDeep()
      modifies this`mode
      ensures mode == if old(Live()) then Deep else old(mode)
    {
      if Live() {
        mode := Deep;
      }
    }

    /** Run the hooks in registration order on a live event; each hook sees
        the event's level and message. */
    method RunHooks(msg: string)
      requires Live()
      modifies this`buf
      ensures buf == old(buf) + HooksFields(hooks, level, msg)
    {
      var i := 0;
      while i < |hooks|
        invariant 0 <= i <= |hooks|
        invariant buf == old(buf) + HooksFields(hooks[..i], level, msg)
      {
        assert hooks[..i + 1][..i] == hooks[..i];
        RunHook(hooks[i], this, level, msg);
        i := i + 1;
      }
      assert hooks[..i] == hooks;
    }

    /** The record Msg(msg) writes for the event as it stands. */
    function RecordFor(msg: string): seq<Entry>
      reads this
    {
      Apply(mode, buf + HooksFields(hooks, level, msg) + MessagePart(msg))
    }

    /** Msg(msg): run the hooks in registration order, append the message
        (none when msg is empty), rewrite by the dedup mode, write the record
        to the sink once, and end the event.  On an event that is not live,
        nothing happens. */
    method Msg(msg: string)
      modifies this`buf, this`sent, sink
      ensures old(Live()) ==> sent && buf == old(buf) + HooksFields(hooks, level, msg) + MessagePart(msg)
      ensures !old(Live()) ==> sent == old(sent) && buf == old(buf)
      ensures sink != null ==>
        sink.records == old(sink.records) + (if old(Live()) then [old(RecordFor(msg))] else [])
    {
      if !Live() {
        return;
      }
      ghost var want := RecordFor(msg);
      RunHooks(msg);
      if msg != "" {
        buf := buf + [Entry(MessageFieldName, Value.Str(msg))];
      }
      assert buf == old(buf) + HooksFields(hooks, level, msg) + MessagePart(msg);
      var r := Apply(mode, buf);
      assert r == want;
      if sink != null {
        sink.Write(r);
      }
      sent := true;
    }
  }

  /** An array builder: its elements in append order. */
  class Array {
    var items: seq<Value>

    constructor ()
      ensures items == []
    {
      items := [];
    }

    method Str(val: string)
      modifies this
      ensures items == old(items) + [Value.Str(val)]
    {
      items := items + [Value.Str(val)];
    }

    method Int(val: int)
      modifies this
      ensures items == old(items) + [Value.Int(val)]
    {
      items := items + [Value.Int(val)];
    }

    /** Dict(d): the sub-object built in d, as the next element. */
    method Dict(d: Event)
      modifies this
      ensures items == old(items) + [Obj(old(d.buf))]
    {
      items := items + [Obj(d.buf)];
    }

    /** Object(m): the fields m marshals, as the next element. */
    method Object(m: ObjectMarshaler)
      requires m.PriceObject? ==> Denominator(m.p.prec) != 0
      modifies this
      ensures items == old(items) + [Obj(ObjectFields(m))]
    {
      var d := new Event.Dict();
      MarshalObject(m, d);
      assert d.buf == ObjectFields(m);
      items := items + [Obj(d.buf)];
    }
  }

  /** What an Array(key, ...) call is given: an array built with Arr(), or a
      value that marshals itself as an array. */
  datatype ArraySource = Built(a: Array) | UsersArray(uu: seq<User>)

  /** The elements an array source yields. */
  function ArrayItems(src: ArraySource): seq<Value>
    reads if src.Built? then {src.a} else {}
  {
    match src
    case Built(a) => a.items
    case UsersArray(uu) => UsersValues(uu)
  }

  // ---------------------------------------------------------------------
  // The examples' own marshalers and hooks

  /** The object marshaler dispatch: each value writes its own fields. */
  method MarshalObject(m: ObjectMarshaler, e: Event)
    requires m.PriceObject? ==> Denominator(m.p.prec) != 0
    modifies e`buf
    ensures e.buf == if old(e.Live()) then old(e.buf) + ObjectFields(m) else old(e.buf)
  {
    match m
    case PriceObject(p) => MarshalPrice(p, e);
    case UserObject(u) => MarshalUser(u, e);
  }

  /** User.MarshalZerologObject: name, age, then creation time. */
  method MarshalUser(u: User, e: Event)
    modifies e`buf
    ensures e.buf == if old(e.Live()) then old(e.buf) + UserFields(u) else old(e.buf)
  {
    e.Str("name", u.name);
    e.Int("age", u.age);
    e.Str("created", u.created);
  }

  /** Price.MarshalZerologObject: the denominator is 10 multiplied in prec
      times in uint64 arithmetic, then the price is written as unit,
      quotient, ".", and the remainder in plain decimal (leading zeros of
      the fraction are lost, see PriceAsWrittenDropsZeros).  A denominator
      that wrapped to zero (prec >= 64) would divide by zero, so callers
      must not pass one. */
  method MarshalPrice(p: Price, e: Event)
    requires Denominator(p.prec) != 0
    modifies e`buf
    ensures e.buf == if old(e.Live()) then old(e.buf) + [Entry("price", Value.Str(PriceTextAsWritten(p)))] else old(e.buf)
  {
    var denom: UInt64 := 1;
    var i := 0;
    while i < p.prec
      invariant 0 <= i <= (if p.prec <= 0 then 0 else p.prec)
      invariant denom == Denominator(i)
      decreases p.prec - i
    {
      denom := Times10(denom);
      i := i + 1;
    }
    if p.prec <= 0 {
      assert Denominator(p.prec) == 1 == Denominator(0);
    }
    assert denom == Denominator(p.prec);
    DivBounds(p.val, denom);
    var q: nat := p.val / denom;
    var r: nat := p.val % denom;
    var result := p.unit + Decimal(q) + "." + Decimal(r);
    assert result == PriceTextAsWritten(p);
    e.Str("price", result);
  }

  /** Users.MarshalZerologArray: one object per user, in order. */
  method MarshalUsers(uu: seq<User>, a: Array)
    modifies a
    ensures a.items == old(a.items) + UsersValues(uu)
  {
    var i := 0;
    while i < |uu|
      invariant 0 <= i <= |uu|
      invariant a.items == old(a.items) + UsersValues(uu[..i])
    {
      assert uu[..i + 1][..i] == uu[..i];
      a.Object(UserObject(uu[i]));
      i := i + 1;
    }
    assert uu[..i] == uu;
  }

  /** Hook.Run: LevelNameHook adds the level's name ("NoLevel" for a call
      without a level); MessageHook adds the message it is shown.  Neither
      touches the message itself. */
  method RunHook(h: Hook, e: Event, l: Level, msg: string)
    modifies e`buf
    ensures e.buf == if old(e.Live()) then old(e.buf) + HookFields(h, l, msg) else old(e.buf)
  {
    match h
    case LevelNameHook =>
      if l != NoLevel {
        e.Str("level_name", Name(l));
      } else {
        e.Str("level_name", "NoLevel");
      }
    case MessageHook(_) =>
      e.Str("the_message", msg);
  }
}
