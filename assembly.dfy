/** Record assembly: the record one log call writes, as a function of the
    call's level, the logger's context, the fields the call added, the
    logger's hooks, the message and the dedup mode the call asked for.

    The raw record is the level entry (when the call carries a level), the
    context entries, the event's own fields, one entry per hook in
    registration order, and the message entry (when the message is not
    empty).  The dedup mode then rewrites the whole record. */
module Assembly {
  import opened Record
  import opened Levels
  import opened Dedup
  import opened KeyOrder
  import opened Helpers

  /** The level entry a call at level l starts with. */
  function LevelPrefix(l: Level): seq<Entry>
  {
    if l == NoLevel then [] else [Entry(LevelFieldName, Str(Name(l)))]
  }

  /** The message entry; an empty message writes none. */
  function MessagePart(msg: string): seq<Entry>
  {
    if msg == "" then [] else [Entry(MessageFieldName, Str(msg))]
  }

  /** The record before any dedup rewrite. */
  function Raw(l: Level, context: seq<Entry>, fields: seq<Entry>, hooks: seq<Hook>, msg: string): seq<Entry>
  {
    LevelPrefix(l) + context + fields + HooksFields(hooks, l, msg) + MessagePart(msg)
  }

  /** The record the call writes. */
  function Assemble(mode: Mode, l: Level, context: seq<Entry>, fields: seq<Entry>, hooks: seq<Hook>, msg: string): seq<Entry>
  {
    Apply(mode, Raw(l, context, fields, hooks, msg))
  }

  /** Without dedup, the record is laid out as: level, context, fields, one
      entry per hook in registration order, then the message. */
  lemma RawLayout(l: Level, context: seq<Entry>, fields: seq<Entry>, hooks: seq<Hook>, msg: string)
    ensures var r := Raw(l, context, fields, hooks, msg);
      var p := |LevelPrefix(l)|;
      var h := p + |context| + |fields|;
      && |r| == h + |hooks| + |MessagePart(msg)|
      && (l != NoLevel ==> r[0] == Entry(LevelFieldName, Str(Name(l))))
      && r[p..p + |context|] == context
      && r[p + |context|..h] == fields
      && (forall i | 0 <= i < |hooks| :: r[h + i] == HookFields(hooks[i], l, msg)[0])
      && (msg != "" ==> r[|r| - 1] == Entry(MessageFieldName, Str(msg)))
  {
    var hf := HooksFields(hooks, l, msg);
    HooksFieldsAt(hooks, l, msg);
    Pieces(LevelPrefix(l), context, fields, hf, MessagePart(msg));
  }

  /** The five pieces of a concatenation, read back by position. */
  lemma Pieces<T>(a: seq<T>, b: seq<T>, c: seq<T>, d: seq<T>, e: seq<T>)
    ensures var s := a + b + c + d + e;
      && |s| == |a| + |b| + |c| + |d| + |e|
      && s[..|a|] == a
      && s[|a|..|a| + |b|] == b
      && s[|a| + |b|..|a| + |b| + |c|] == c
      && (forall i | 0 <= i < |d| :: s[|a| + |b| + |c| + i] == d[i])
      && s[|a| + |b| + |c| + |d|..] == e
  {
    var s := a + b + c + d + e;
    assert s == a + (b + (c + (d + e)));
    assert s[|a|..] == b + (c + (d + e));
    assert s[|a| + |b|..] == c + (d + e);
    assert s[|a| + |b| + |c|..] == d + e;
  }

  /** The level key is present exactly when the call carries a level or the
      caller wrote a field named "level" (hooks never do), whatever the
      dedup mode. */
  lemma LevelPresence(mode: Mode, l: Level, context: seq<Entry>, fields: seq<Entry>, hooks: seq<Hook>, msg: string)
    ensures LevelFieldName in Keys(Assemble(mode, l, context, fields, hooks, msg))
        <==> l != NoLevel || LevelFieldName in Keys(context + fields)
  {
    var r := Raw(l, context, fields, hooks, msg);
    HooksAvoid(hooks, l, msg, LevelFieldName);
    Partition(l, context, fields, hooks, msg, LevelFieldName);
    ApplyKeySet(mode, r, LevelFieldName);
  }

  /** The message key is present exactly when the message is not empty or
      the caller wrote a field named "message" (hooks never do), whatever the
      dedup mode; Msg("") writes no message entry. */
  lemma MessagePresence(mode: Mode, l: Level, context: seq<Entry>, fields: seq<Entry>, hooks: seq<Hook>, msg: string)
    ensures MessageFieldName in Keys(Assemble(mode, l, context, fields, hooks, msg))
        <==> msg != "" || MessageFieldName in Keys(context + fields)
  {
    var r := Raw(l, context, fields, hooks, msg);
    HooksAvoidMessage(hooks, l, msg);
    Partition(l, context, fields, hooks, msg, MessageFieldName);
    ApplyKeySet(mode, r, MessageFieldName);
  }

  /** Hooks write only "level_name" and "the_message". */
  lemma HooksAvoid(hooks: seq<Hook>, l: Level, msg: string, k: string)
    requires k == LevelFieldName || k == MessageFieldName
    ensures k !in Keys(HooksFields(hooks, l, msg))
  {
    HooksFieldsAt(hooks, l, msg);
    forall i | 0 <= i < |hooks| ensures HooksFields(hooks, l, msg)[i].key != k {
    }
  }

  /** Where a reserved key of the raw record can come from. */
  lemma Partition(l: Level, context: seq<Entry>, fields: seq<Entry>, hooks: seq<Hook>, msg: string, k: string)
    requires k == LevelFieldName || k == MessageFieldName
    ensures k in Keys(Raw(l, context, fields, hooks, msg)) <==>
      (k == LevelFieldName && l != NoLevel) || (k == MessageFieldName && msg != "")
      || k in Keys(context + fields)
  {
    HooksAvoid(hooks, l, msg, k);
    assert Keys(LevelPrefix(l)) == if l == NoLevel then [] else [LevelFieldName];
    assert Keys(MessagePart(msg)) == if msg == "" then [] else [MessageFieldName];
    assert LevelFieldName != MessageFieldName;
    var hf := HooksFields(hooks, l, msg);
    KeysConcat(LevelPrefix(l) + context + fields + hf, MessagePart(msg));
    KeysConcat(LevelPrefix(l) + context + fields, hf);
    KeysConcat(LevelPrefix(l), context + fields);
    assert LevelPrefix(l) + context + fields == LevelPrefix(l) + (context + fields);
  }

  /** Every dedup mode keeps exactly the keys of the record. */
  lemma ApplyKeySet(mode: Mode, es: seq<Entry>, k: string)
    ensures k in Keys(Apply(mode, es)) <==> k in Keys(es)
  {
    match mode
    case NoDedup =>
    case Shallow => CollapseKeySet(es, k);
    case Deep => CollapseDeepMeetsSpec(es);
  }

  /** Under shallow dedup, the level entry stays first and the message entry
      stays last, as long as no other field uses their keys. */
  lemma ShallowKeepsEnds(l: Level, context: seq<Entry>, fields: seq<Entry>, hooks: seq<Hook>, msg: string)
    requires LevelFieldName !in Keys(context + fields)
    requires MessageFieldName !in Keys(context + fields)
    ensures var r := Assemble(Shallow, l, context, fields, hooks, msg);
      && (l != NoLevel ==> r != [] && r[0] == Entry(LevelFieldName, Str(Name(l))))
      && (msg != "" ==> r != [] && r[|r| - 1] == Entry(MessageFieldName, Str(msg)))
  {
    var raw := Raw(l, context, fields, hooks, msg);
    RawLayout(l, context, fields, hooks, msg);
    if l != NoLevel {
      SingleOccurrence(l, context, fields, hooks, msg, LevelFieldName, 0);
      CollapseKeepsHead(raw);
    }
    if msg != "" {
      SingleOccurrence(l, context, fields, hooks, msg, MessageFieldName, |raw| - 1);
      CollapseKeepsLast(raw);
    }
  }

  /** A reserved key that the caller did not use occurs once in the raw
      record, at the place the level or message entry took. */
  lemma SingleOccurrence(l: Level, context: seq<Entry>, fields: seq<Entry>, hooks: seq<Hook>, msg: string, k: string, at: nat)
    requires k == LevelFieldName || k == MessageFieldName
    requires k !in Keys(context + fields)
    requires at < |Raw(l, context, fields, hooks, msg)| && Raw(l, context, fields, hooks, msg)[at].key == k
    ensures Occurrences(Raw(l, context, fields, hooks, msg), k) == 1
  {
    var raw := Raw(l, context, fields, hooks, msg);
    var hf := HooksFields(hooks, l, msg);
    HooksAvoid(hooks, l, msg, k);
    var mid := context + fields + hf;
    KeysConcat(context + fields, hf);
    assert k !in Keys(mid);
    assert raw == LevelPrefix(l) + mid + MessagePart(msg);
    OccurrencesConcat(LevelPrefix(l), mid, k);
    OccurrencesConcat(LevelPrefix(l) + mid, MessagePart(msg), k);
    OccurrencesPositive(mid, k);
    OccurrencesPositive(raw, k);
    KeyIn(raw, at);
    assert Occurrences(LevelPrefix(l), k) <= 1 && Occurrences(MessagePart(msg), k) <= 1;
    if k == LevelFieldName {
      assert Occurrences(MessagePart(msg), k) == 0;
    } else {
      assert Occurrences(LevelPrefix(l), k) == 0;
    }
  }

  lemma {:induction false} OccurrencesConcat(a: seq<Entry>, b: seq<Entry>, k: string)
    ensures Occurrences(a + b, k) == Occurrences(a, k) + Occurrences(b, k)
    decreases |b|
  {
    if b == [] {
      assert a + b == a;
    } else {
      var n := |b| - 1;
      assert (a + b)[..|a + b| - 1] == a + b[..n];
      OccurrencesConcat(a, b[..n], k);
    }
  }

  /** Under either dedup mode the record holds every key once, and each
      entry carries the last value written for its key (deep-rewritten under
      DeDupDeep, whose record also has its keys in ascending order). */
  lemma DedupLastValueWins(mode: Mode, l: Level, context: seq<Entry>, fields: seq<Entry>, hooks: seq<Hook>, msg: string)
    requires mode != NoDedup
    ensures var raw := Raw(l, context, fields, hooks, msg);
      var r := Assemble(mode, l, context, fields, hooks, msg);
      && UniqueKeys(r)
      && (mode == Deep ==> Ordered(r))
      && forall i | 0 <= i < |r| :: r[i].key in Keys(raw) &&
           r[i].value == (if mode == Shallow then LastValue(raw, r[i].key) else DeepValue(LastValue(raw, r[i].key)))
  {
    var raw := Raw(l, context, fields, hooks, msg);
    if mode == Shallow {
      CollapseMeetsSpec(raw);
    } else {
      CollapseDeepMeetsSpec(raw);
    }
  }

  /** A call that adds no fields, on a logger without context or hooks, is
      left unchanged by either dedup mode. */
  lemma DedupOfBareRecord(mode: Mode, l: Level, msg: string)
    ensures Assemble(mode, l, [], [], [], msg) == Raw(l, [], [], [], msg)
  {
    var raw := Raw(l, [], [], [], msg);
    BareRecordOrdered(l, msg);
    OrderedUnique(raw);
    CollapseUnique(raw);
    if mode == Deep {
      CollapseDeepOfFlat(raw);
      SortOfOrdered(raw);
    }
  }

  /** The bare record is at most the level and the message, in key order,
      with string values. */
  lemma BareRecordOrdered(l: Level, msg: string)
    ensures Ordered(Raw(l, [], [], [], msg)) && CanonicalValues(Raw(l, [], [], [], msg))
  {
    var raw := Raw(l, [], [], [], msg);
    assert HooksFields([], l, msg) == [];
    var lv := LevelPrefix(l);
    var m := MessagePart(msg);
    assert raw == lv + m;
    if lv != [] && m != [] {
      assert Less(LevelFieldName, MessageFieldName);
      assert raw == [lv[0], m[0]];
    }
    CanonicalValuesAt(raw);
  }
}
