/** Loggers and contexts.

    A Logger is an immutable value: its sink, its frozen context entries,
    its level threshold, its sampler and its hooks.  Every derivation yields
    a new Logger and leaves the receiver as it was.  With() opens a Context,
    a private copy of the context entries that field calls extend and
    ToLogger() freezes (after the dedup rewrite, if one was asked for) into
    a new Logger.  The per-level calls open an Event, subject to the level
    gate and then the sampler. */
module Loggers {
  import opened Record
  import opened Levels
  import opened Dedup
  import opened KeyOrder
  import opened Sampling
  import opened Helpers
  import opened Assembly
  import opened Events

  /** The sampler a logger consults: none, or a shared basic sampler. */
  datatype Sampler = Unsampled | Basic(s: BasicSampler)

  /** New(w): a logger writing to the sink, with no context, threshold Trace,
      no sampler and no hooks. */
  function New(sink: Sink): (l: Logger)
    ensures l.sink == sink && l.context == [] && l.threshold == Trace
    ensures l.sampler == Unsampled && l.hooks == []
    ensures forall lv :: lv != Disabled ==> Passes(l.threshold, lv)
  {
    Logger(sink, [], Trace, Unsampled, [])
  }

  datatype Logger = Logger(sink: Sink, context: seq<Entry>, threshold: Level, sampler: Sampler, hooks: seq<Hook>)
  {
    /** The state the sampler keeps. */
    function SamplerFrame(): set<object>
    {
      if sampler.Basic? then {sampler.s} else {}
    }

    /** Level(l): a logger whose gate admits exactly the calls at or above
        l (none when l is Disabled); everything else is this logger's. */
    function WithThreshold(l: Level): (r: Logger)
      ensures forall lv :: Passes(r.threshold, lv) <==> l != Disabled && lv != Disabled && Rank(lv) >= Rank(l)
      ensures r.sink == sink && r.context == context && r.sampler == sampler && r.hooks == hooks
    {
      this.(threshold := l)
    }

    /** Sample(s): a logger consulting sampler s; everything else is this
        logger's. */
    function WithSampler(s: Sampler): (r: Logger)
      ensures r.sampler == s
      ensures r.sink == sink && r.context == context && r.threshold == threshold && r.hooks == hooks
    {
      this.(sampler := s)
    }

    /** Hook(h...): a logger whose hooks are this logger's followed by hs,
        so on every call the fields of hs come after those of the existing
        hooks; everything else is this logger's. */
    function WithHooks(hs: seq<Hook>): (r: Logger)
      ensures |r.hooks| == |hooks| + |hs| && r.hooks[..|hooks|] == hooks && r.hooks[|hooks|..] == hs
      ensures forall lv, msg :: HooksFields(r.hooks, lv, msg) == HooksFields(hooks, lv, msg) + HooksFields(hs, lv, msg)
      ensures r.sink == sink && r.context == context && r.threshold == threshold && r.sampler == sampler
    {
      HooksFieldsAppendAll(hooks, hs);
      this.(hooks := hooks + hs)
    }

    /** With(): a context over a private copy of this logger's entries.
        Freezing it again without adding anything gives back this logger. */
    function With(): (c: Context)
      ensures c.logger == this && c.fields == context && c.mode == NoDedup
      ensures c.ToLogger() == this
    {
      Context(this, context, NoDedup)
    }

    /** Whether the next call at level l yields a live event: it passes the
        level gate, and then the sampler admits it. */
    predicate WillPass(l: Level)
      reads SamplerFrame()
    {
      Passes(threshold, l) && (sampler.Basic? ==> Admits(sampler.s.n, sampler.s.counter + 1))
    }

    /** The event for a call at level l.  The level gate is checked first;
        only a call that passes it consults (and advances) the sampler.  A
        call dropped by either yields the disabled event. */
    method NewEvent(l: Level) returns (e: Event)
      modifies SamplerFrame()
      ensures fresh(e) && !e.sent && e.mode == NoDedup
      ensures e.enabled == old(WillPass(l))
      ensures e.enabled ==> e.buf == LevelPrefix(l) + context && e.level == l && e.hooks == hooks && e.sink == sink
      ensures !e.enabled ==> e.buf == [] && e.sink == null
      ensures sampler.Basic? ==>
        sampler.s.counter == old(sampler.s.counter) + (if Passes(threshold, l) then 1 else 0)
    {
      if !Passes(threshold, l) {
        e := new Event.Off();
        return;
      }
      var pass := true;
      if sampler.Basic? {
        pass := sampler.s.Sample();
      }
      if pass {
        e := new Event.Start(sink, l, hooks, context);
      } else {
        e := new Event.Off();
      }
    }

    method Trace() returns (e: Event)
      modifies SamplerFrame()
      ensures fresh(e) && !e.sent && e.mode == NoDedup
      ensures e.enabled == old(WillPass(Levels.Trace))
      ensures e.enabled ==> e.buf == LevelPrefix(Levels.Trace) + context && e.level == Levels.Trace && e.hooks == hooks && e.sink == sink
      ensures !e.enabled ==> e.buf == [] && e.sink == null
      ensures sampler.Basic? ==>
        sampler.s.counter == old(sampler.s.counter) + (if Passes(threshold, Levels.Trace) then 1 else 0)
    {
      e := NewEvent(Levels.Trace);
    }

    method Debug() returns (e: Event)
      modifies SamplerFrame()
      ensures fresh(e) && !e.sent && e.mode == NoDedup
      ensures e.enabled == old(WillPass(Levels.Debug))
      ensures e.enabled ==> e.buf == LevelPrefix(Levels.Debug) + context && e.level == Levels.Debug && e.hooks == hooks && e.sink == sink
      ensures !e.enabled ==> e.buf == [] && e.sink == null
      ensures sampler.Basic? ==>
        sampler.s.counter == old(sampler.s.counter) + (if Passes(threshold, Levels.Debug) then 1 else 0)
    {
      e := NewEvent(Levels.Debug);
    }

    method Info() returns (e: Event)
      modifies SamplerFrame()
      ensures fresh(e) && !e.sent && e.mode == NoDedup
      ensures e.enabled == old(WillPass(Levels.Info))
      ensures e.enabled ==> e.buf == LevelPrefix(Levels.Info) + context && e.level == Levels.Info && e.hooks == hooks && e.sink == sink
      ensures !e.enabled ==> e.buf == [] && e.sink == null
      ensures sampler.Basic? ==>
        sampler.s.counter == old(sampler.s.counter) + (if Passes(threshold, Levels.Info) then 1 else 0)
    {
      e := NewEvent(Levels.Info);
    }

    method Warn() returns (e: Event)
      modifies SamplerFrame()
      ensures fresh(e) && !e.sent && e.mode == NoDedup
      ensures e.enabled == old(WillPass(Levels.Warn))
      ensures e.enabled ==> e.buf == LevelPrefix(Levels.Warn) + context && e.level == Levels.Warn && e.hooks == hooks && e.sink == sink
      ensures !e.enabled ==> e.buf == [] && e.sink == null
      ensures sampler.Basic? ==>
        sampler.s.counter == old(sampler.s.counter) + (if Passes(threshold, Levels.Warn) then 1 else 0)
    {
      e := NewEvent(Levels.Warn);
    }

    method Error() returns (e: Event)
      modifies SamplerFrame()
      ensures fresh(e) && !e.sent && e.mode == NoDedup
      ensures e.enabled == old(WillPass(Levels.Error))
      ensures e.enabled ==> e.buf == LevelPrefix(Levels.Error) + context && e.level == Levels.Error && e.hooks == hooks && e.sink == sink
      ensures !e.enabled ==> e.buf == [] && e.sink == null
      ensures sampler.Basic? ==>
        sampler.s.counter == old(sampler.s.counter) + (if Passes(threshold, Levels.Error) then 1 else 0)
    {
      e := NewEvent(Levels.Error);
    }

    /** Log(): a call without a level; no level entry is written, and only a
        disabled threshold stops it. */
    method Log() returns (e: Event)
      modifies SamplerFrame()
      ensures fresh(e) && !e.sent && e.mode == NoDedup
      ensures e.enabled == old(WillPass(NoLevel))
      ensures e.enabled ==> e.buf == context && e.level == NoLevel && e.hooks == hooks && e.sink == sink
      ensures !e.enabled ==> e.buf == [] && e.sink == null
      ensures sampler.Basic? ==>
        sampler.s.counter == old(sampler.s.counter) + (if Passes(threshold, NoLevel) then 1 else 0)
    {
      e := NewEvent(NoLevel);
    }

    /** WithLevel(l): a call at a level chosen at run time; Disabled yields
        the disabled event without consulting the sampler. */
    method WithLevel(l: Level) returns (e: Event)
      modifies SamplerFrame()
      ensures fresh(e) && !e.sent && e.mode == NoDedup
      ensures l == Disabled ==> !e.enabled && e.buf == []
      ensures e.enabled == old(WillPass(l))
      ensures e.enabled ==> e.buf == LevelPrefix(l) + context && e.level == l && e.hooks == hooks && e.sink == sink
      ensures !e.enabled ==> e.buf == [] && e.sink == null
      ensures sampler.Basic? ==>
        sampler.s.counter == old(sampler.s.counter) + (if Passes(threshold, l) then 1 else 0)
    {
      if l == Disabled {
        e := new Event.Off();
      } else {
        e := NewEvent(l);
      }
    }

    /** Print(msg): msg as the message of a debug call. */
    method Print(msg: string)
      modifies SamplerFrame(), sink
      ensures sink.records == old(sink.records) +
        (if old(WillPass(Levels.Debug)) then [Assemble(NoDedup, Levels.Debug, context, [], hooks, msg)] else [])
    {
      var e := Debug();
      assert e.enabled ==> e.buf == LevelPrefix(Levels.Debug) + context + [];
      e.Msg(msg);
    }

    /** Println(msg): msg and a newline as the message of a debug call. */
    method Println(msg: string)
      modifies SamplerFrame(), sink
      ensures sink.records == old(sink.records) +
        (if old(WillPass(Levels.Debug)) then [Assemble(NoDedup, Levels.Debug, context, [], hooks, msg + "\n")] else [])
    {
      var e := Debug();
      assert e.enabled ==> e.buf == LevelPrefix(Levels.Debug) + context + [];
      e.Msg(msg + "\n");
    }

    /** Write(p), the logger as a byte writer: one trailing newline is dropped,
        the rest becomes the message of a call without a level, and the whole
        length of p is reported as written. */
    method Write(p: string) returns (n: nat)
      modifies SamplerFrame(), sink
      ensures n == |p|
      ensures sink.records == old(sink.records) +
        (if old(WillPass(NoLevel)) then [Assemble(NoDedup, NoLevel, context, [], hooks, TrimNewline(p))] else [])
    {
      n := |p|;
      var msg := p;
      if n > 0 && p[n - 1] == '\n' {
        msg := p[..n - 1];
      }
      var e := Log();
      assert e.enabled ==> e.buf == LevelPrefix(NoLevel) + context + [];
      assert msg == TrimNewline(p);
      e.Msg(msg);
    }
  }

  /** p without one trailing newline. */
  function TrimNewline(p: string): (r: string)
    ensures p != [] && p[|p| - 1] == '\n' ==> r + "\n" == p
    ensures (p == [] || p[|p| - 1] != '\n') ==> r == p
  {
    if p != [] && p[|p| - 1] == '\n' then p[..|p| - 1] else p
  }

  /** A context under construction: the parent logger, the private copy of
      its entries extended by the field calls so far, and the dedup mode the
      chain asked for. */
  datatype Context = Context(logger: Logger, fields: seq<Entry>, mode: Mode)
  {
    /** The context extended by es, with the same parent and mode. */
    predicate Extends(c: Context, es: seq<Entry>)
    {
      logger == c.logger && mode == c.mode && fields == c.fields + es
    }

    function Str(key: string, val: string): (r: Context)
      ensures r.Extends(this, [Entry(key, Value.Str(val))])
    {
      this.(fields := fields + [Entry(key, Value.Str(val))])
    }

    /** Dict(key, d): the sub-object built in d, under key. */
    function Dict(key: string, d: Event): (r: Context)
      reads d
      ensures r.Extends(this, [Entry(key, Obj(d.buf))])
    {
      this.(fields := fields + [Entry(key, Obj(d.buf))])
    }

    /** Array(key, src): the elements src yields, as an array under key. */
    function Array(key: string, src: ArraySource): (r: Context)
      reads if src.Built? then {src.a} else {}
      ensures r.Extends(this, [Entry(key, Arr(ArrayItems(src)))])
    {
      this.(fields := fields + [Entry(key, Arr(ArrayItems(src)))])
    }

    /** Object(key, m): the fields m marshals, as a sub-object under key. */
    function Object(key: string, m: ObjectMarshaler): (r: Context)
      requires m.PriceObject? ==> Denominator(m.p.prec) != 0
      ensures r.Extends(this, [Entry(key, Obj(ObjectFields(m)))])
    {
      this.(fields := fields + [Entry(key, Obj(ObjectFields(m)))])
    }

    /** EmbedObject(m): the fields m marshals, straight into the context. */
    function EmbedObject(m: ObjectMarshaler): (r: Context)
      requires m.PriceObject? ==> Denominator(m.p.prec) != 0
      ensures r.Extends(this, ObjectFields(m))
    {
      this.(fields := fields + ObjectFields(m))
    }

    /** Fields given as a key/value list, in list order. */
    function Fields(fs: seq<Entry>): (r: Context)
      ensures r.Extends(this, fs)
    {
      this.(fields := fields + fs)
    }

    /** Fields given as a map: the map's entries, each once, in ascending
        key order. */
    function FieldsMap(m: seq<Entry>): (r: Context)
      requires UniqueKeys(m)
      ensures r.logger == logger && r.mode == mode
      ensures |r.fields| == |fields| + |m| && r.fields[..|fields|] == fields
      ensures multiset(r.fields[|fields|..]) == multiset(m)
      ensures Ordered(r.fields[|fields|..])
    {
      SortPermutes(m);
      SortOrdered(m);
      assert |SortByKey(m)| == |multiset(SortByKey(m))| == |multiset(m)| == |m|;
      assert (fields + SortByKey(m))[|fields|..] == SortByKey(m);
      this.(fields := fields + SortByKey(m))
    }

    /** DeDup(): ask for the shallow rewrite when the logger is made. */
    function DeDup(): (r: Context)
      ensures r.mode == Shallow && r.logger == logger && r.fields == fields
    {
      this.(mode := Shallow)
    }

    /** DeDupDeep(): ask for the deep rewrite when the logger is made. */
    function DeDupDeep(): (r: Context)
      ensures r.mode == Deep && r.logger == logger && r.fields == fields
    {
      this.(mode := Deep)
    }

    /** Logger(): the parent logger with the entries, rewritten by the dedup
        mode, as its context; everything else is the parent's.  The context
        keeps exactly the keys written, and under either dedup mode holds
        each of them once. */
    function ToLogger(): (r: Logger)
      ensures r.context == Apply(mode, fields)
      ensures forall k :: k in Keys(r.context) <==> k in Keys(fields)
      ensures mode != NoDedup ==> UniqueKeys(r.context)
      ensures r.sink == logger.sink && r.threshold == logger.threshold
      ensures r.sampler == logger.sampler && r.hooks == logger.hooks
    {
      ApplyKeys(mode, fields);
      logger.(context := Apply(mode, fields))
    }
  }

  /** Every dedup mode keeps exactly the keys written; either dedup mode
      leaves each key once. */
  lemma ApplyKeys(mode: Mode, es: seq<Entry>)
    ensures forall k :: k in Keys(Apply(mode, es)) <==> k in Keys(es)
    ensures mode != NoDedup ==> UniqueKeys(Apply(mode, es))
  {
    forall k ensures k in Keys(Apply(mode, es)) <==> k in Keys(es) {
      ApplyKeySet(mode, es, k);
    }
    if mode == Shallow {
      CollapseMeetsSpec(es);
    } else if mode == Deep {
      CollapseDeepMeetsSpec(es);
    }
  }

  /** A logger derived through With(), a chain of field calls and
      Logger() shares everything with its parent except its context: the
      parent's context followed by the chain's fields, rewritten by the
      dedup mode the chain asked for (none, DeDup() or DeDupDeep()). */
  lemma DerivedLogger(l: Logger, fs: seq<Entry>)
    ensures l.With().Fields(fs).ToLogger() == l.(context := l.context + fs)
    ensures l.With().Fields(fs).DeDup().ToLogger() == l.(context := Collapse(l.context + fs))
    ensures l.With().Fields(fs).DeDupDeep().ToLogger() == l.(context := CollapseDeep(l.context + fs))
  {
  }

  /** Without DeDup a context keeps every entry, duplicates included, in add
      order; with DeDup, one entry per key with the last value. */
  lemma ContextDuplicates(l: Logger, k: string, v1: string, v2: string)
    requires l.context == []
    ensures l.With().Str(k, v1).Str(k, v2).ToLogger().context == [Entry(k, Value.Str(v1)), Entry(k, Value.Str(v2))]
    ensures l.With().Str(k, v1).Str(k, v2).DeDup().ToLogger().context == [Entry(k, Value.Str(v2))]
  {
    CollapseTwice(k, Value.Str(v1), Value.Str(v2));
  }
}
