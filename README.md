# zerolog: records, levels, sampling and dedup

A Dafny model of the logging behaviour that the documented examples of
zerolog (the treavorj fork) pin down, together with the small pieces of
logic those examples define themselves.

The model describes a log record abstractly. It is a sequence of entries,
each a key and a value, where a value is a string, an integer, a nested
object or an array. JSON text is not modelled. One log call builds its
record in this order:

- the level entry, when the call carries a level;
- the logger's context entries;
- the call's own fields;
- one entry per hook, in registration order;
- the message, when it is not empty.

The dedup mode the call asked for then rewrites the whole record, and the
result is written to the sink once.

Modules:

- `Record`: entries and values.
- `KeyOrder`: string order and a sort by key.
- `Dedup`: the two duplicate-key rewrites.
- `Levels`: the threshold gate.
- `Sampling`: `BasicSampler{N}`, a class with a call counter.
- `Helpers`: the examples' own types and the functions that specify them.
- `Assembly`: the record as a function of its parts.
- `Events`: events, arrays and the sink as classes that are appended to in
  place; also the examples' marshalers and hooks, written as loops.
- `Loggers`: loggers and contexts as values.
- `Examples`: each documented example as a method. Its postcondition is
  the example's expected output, read as a record.

How the model reads the examples:

- `DeDup` (called `Shallow` in the model) keeps one entry per key. The
  entry sits where the key first occurred and holds the value written last.
- `DeDupDeep` (`Deep`) does the same at every nesting depth. It then sorts
  each object's keys in ascending order, as re-encoding the record through
  a Go map would. This key order is inferred from the examples. The
  library code that performs it is not part of this model. The order
  agrees with log_example_test.go:886, where "foo" comes before "level".
  It also yields one of the two outputs each two-format example accepts.
- A context's dedup (`With()…DeDup().Logger()`) rewrites only the context
  entries, once, when the logger is made. An event's dedup rewrites the
  whole record, level and message included.
- `Msg("")` writes no message entry, as log_example_test.go:184-193 shows.

## Model

| member | source | states |
|---|---|---|
| Levels.DisabledBlocksAll | log_example_test.go:37-44 | a disabled threshold lets no call through |
| Levels.PassesMonotone | log_example_test.go:37-44 | what passes a threshold also passes every lower threshold, and so does every more severe call |
| Levels.NameInjective | log_example_test.go:109-160 | different levels are written under different names, so the level field identifies the level |
| Sampling.BasicSampler.Sample | log_example_test.go:46-56 | each call advances the counter by one; the call passes exactly when the new count is 1 modulo N |
| Sampling.DecisionsFromStart | log_example_test.go:46-56 | starting from count c, call i passes exactly when c + i is a multiple of N; so a fresh sampler passes calls 1, N+1, 2N+1, … |
| Sampling.PassCountFresh | log_example_test.go:46-56 | of the first k calls of a fresh sampler, exactly ceil(k / N) pass |
| Sampling.PeriodTwoOverFour | log_example_test.go:46-56 | with N = 2, four calls decide pass, drop, pass, drop |
| Loggers.Logger.NewEvent | log_example_test.go:37-56 | the gate is checked first and only a passing call advances the sampler; the event is live exactly when both gate and sampler pass; a live event starts with the level entry and the context |
| Loggers.Logger.Trace | log_example_test.go:109-118 | a trace event: live exactly when the gate and sampler pass, seeded with the "trace" level entry and the context |
| Loggers.Logger.Debug | log_example_test.go:120-129 | the same for debug |
| Loggers.Logger.Info | log_example_test.go:131-140 | the same for info |
| Loggers.Logger.Warn | log_example_test.go:142-150 | the same for warn |
| Loggers.Logger.Error | log_example_test.go:152-160 | the same for error |
| Loggers.Logger.Log | log_example_test.go:184-193 | an event with no level entry: it starts with the context alone |
| Loggers.Logger.WithLevel | log_example_test.go:162-169 | an event at the given level; the disabled level always yields a dead, empty event |
| Loggers.Logger.Print | log_example_test.go:85-91 | appends to the sink the debug record with the text as its message, when a debug call passes |
| Loggers.Logger.Println | log_example_test.go:101-107 | the same, with a newline appended to the message |
| Loggers.Logger.Write | log_example_test.go:171-182 | reports the whole input length as written; appends a level-less record whose message is the input without one trailing newline |
| Loggers.TrimNewline | log_example_test.go:171-182 | drops exactly one trailing newline and leaves other input unchanged |
| Loggers.New | log_example_test.go:19-24 | a new logger has an empty context, no sampler and no hooks, and its level gate admits every level except the disabled sentinel |
| Loggers.Logger.WithThreshold | log_example_test.go:37-44 | Level(l): the new logger's gate admits exactly the calls at or above l, none when l is disabled; everything else is the parent's |
| Loggers.Logger.WithSampler | log_example_test.go:46-56 | Sample(s): the new logger consults s; everything else is the parent's |
| Loggers.Logger.WithHooks | log_example_test.go:74-83 | Hook(h...): the new hooks run after the existing ones, so their fields follow the existing hooks' fields on every call; everything else is the parent's |
| Loggers.Logger.With | log_example_test.go:26-35 | With(): a context over a copy of the logger's entries, with no dedup asked; freezing it unchanged gives back the same logger |
| Loggers.Context.Str | log_example_test.go:26-35 | appends one string field to the context's copy, keeping the parent and the dedup mode |
| Loggers.Context.Dict | log_example_test.go:385-396 | appends the sub-object built in the dict under the key |
| Loggers.Context.Array | log_example_test.go:398-426 | appends the array source's elements as an array under the key |
| Loggers.Context.Object | log_example_test.go:428-440 | appends the marshaler's fields as a sub-object under the key |
| Loggers.Context.EmbedObject | log_example_test.go:442-454 | appends the marshaler's fields directly into the context |
| Loggers.Context.Fields | log_example_test.go:551-565 | appends key/value-list fields in list order |
| Loggers.Context.FieldsMap | log_example_test.go:535-549 | appends the map's entries, each once, in ascending key order, after the fields already there |
| Loggers.Context.DeDup | log_example_test.go:567-578 | asks for the shallow rewrite, leaving the fields as they are |
| Loggers.Context.DeDupDeep | log_example_test.go:775-786 | asks for the deep rewrite, leaving the fields as they are |
| Loggers.Context.ToLogger | log_example_test.go:567-601 | Logger(): the parent with the rewritten entries as its context; the context keeps exactly the keys written, each once under either dedup mode |
| Loggers.ApplyKeys | log_example_test.go:567-601 | every dedup mode keeps exactly the keys written, and either dedup mode leaves each key once |
| Loggers.DerivedLogger | log_example_test.go:26-35 | With(), field calls, then Logger() (with DeDup(), DeDupDeep() or neither) give the parent with its context extended by the fields and rewritten by that mode; nothing else changes |
| Helpers.HooksFieldsAppend | log_example_test.go:74-83 | hooks registered later contribute their fields after those registered before them |
| Events.Event.Dict | log_example_test.go:195-207 | Dict(): an empty, live sub-object builder with no level, hooks or sink |
| Events.Array.constructor | log_example_test.go:245-261 | Arr(): an empty array builder |
| Events.Sink.Write | log_example_test.go:19-24 | one write appends exactly one record to what the sink holds |
| Loggers.ContextDuplicates | log_example_test.go:567-590 | without dedup a context keeps both writes of a key in add order; with DeDup it keeps one entry with the second value |
| Events.Event.Start | log_example_test.go:19-35 | a live event starts with the level entry and the context |
| Events.Event.Add | log_example_test.go:109-160 | a live event appends the field at the end; a dead or sent event ignores it |
| Events.Event.Str | log_example_test.go:109-150 | appends a string field to a live event |
| Events.Event.Int | log_example_test.go:109-140 | appends an integer field to a live event |
| Events.Event.Err | log_example_test.go:152-160 | appends the error text under "error" to a live event |
| Events.Event.AddDict | log_example_test.go:195-207 | appends the sub-object's entries, as an object under the key |
| Events.Event.Fields | log_example_test.go:369-383 | appends key/value-list fields in list order |
| Events.Event.FieldsMap | log_example_test.go:353-367 | appends map fields in ascending key order |
| Events.Event.Object | log_example_test.go:280-292 | appends the fields the marshaler writes, as an object under the key |
| Events.Event.EmbedObject | log_example_test.go:294-305 | appends the fields the marshaler writes directly into the event |
| Events.Event.Array | log_example_test.go:245-278 | appends the array source's elements, as an array under the key |
| Events.Event.DeDup | log_example_test.go:669-700 | a live event switches to shallow dedup |
| Events.Event.DeDupDeep | log_example_test.go:877-908 | a live event switches to deep dedup |
| Events.Event.RunHooks | log_example_test.go:58-83 | the hooks run in registration order, each adding its fields after those already in the event |
| Events.Event.Msg | log_example_test.go:19-83 | a live event runs the hooks in registration order, appends the message, and writes to the sink exactly the record its dedup mode makes of the result; a dead or sent event writes nothing |
| Events.Array.Str | log_example_test.go:245-261 | appends a string element |
| Events.Array.Int | log_example_test.go:245-261 | appends an integer element |
| Events.Array.Dict | log_example_test.go:245-261 | appends the sub-object as an element |
| Events.Array.Object | log_example_test.go:237-243 | appends the marshaler's fields as an object element |
| Events.MarshalUser | log_example_test.go:209-219 | a user writes name, age and creation time, in that order |
| Events.MarshalPrice | log_example_test.go:221-235 | the loop's denominator is 10 multiplied in prec times with uint64 wrap-around; the field written is "price" with the text the source writes: unit, quotient, "." and the remainder in plain decimal |
| Events.MarshalObject | log_example_test.go:209-235 | each marshaler writes exactly its own fields |
| Events.MarshalUsers | log_example_test.go:237-243 | the loop appends one user object per user, in list order |
| Events.RunHook | log_example_test.go:58-72 | the level-name hook adds the level's name ("NoLevel" for a call without a level); the message hook adds the message it sees; neither changes the message |
| Helpers.HooksFieldsAt | log_example_test.go:58-83 | the hook fields are one entry per hook, in registration order |
| Helpers.HooksAvoidMessage | log_example_test.go:58-83 | hooks never write the "message" key |
| Helpers.UsersValuesAt | log_example_test.go:237-243 | the users array holds one object per user, in order |
| Helpers.DenominatorExact | log_example_test.go:227-230 | for prec up to 19 the loop's denominator is exactly 10^prec |
| Helpers.PriceTextDenotesPrice | log_example_test.go:227-235 | for prec 1..19 the corrected text is unit, quotient, "." and exactly prec fraction digits, and the digits around the dot read back as val |
| Helpers.PriceTextWhole | log_example_test.go:227-235 | with prec <= 0 the denominator is 1 and the text is unit, val, ".0" |
| Helpers.PriceAsWrittenAgrees | log_example_test.go:227-235 | for prec 1..19 the text as written equals the zero-padded text exactly when prec is 1 or the remainder has prec digits |
| Helpers.PriceAsWrittenDropsZeros | log_example_test.go:232-233 | as written, Price{6405, 2, "$"} renders "$64.5" where "$64.05" is meant |
| Helpers.PriceExample | log_example_test.go:294-305 | Price{6449, 2, "$"} renders "$64.49" both as written and corrected |
| Helpers.DecimalRoundTrip | log_example_test.go:232-233 | "%d" text is all digits and reads back as the number |
| Dedup.CollapseMeetsSpec | log_example_test.go:567-578 | shallow dedup leaves every key once, in first-occurrence order, each with the last value written for it |
| Dedup.CollapseIsUnique | log_example_test.go:567-578 | that description determines the shallow rewrite: a record meets it exactly when it is the shallow rewrite |
| Dedup.CollapseKeySet | log_example_test.go:669-679 | shallow dedup keeps exactly the keys of the record |
| Dedup.CollapseUnique | log_example_test.go:592-601 | a record without duplicate keys is left unchanged by shallow dedup |
| Dedup.CollapseIdempotent | log_example_test.go:567-578 | shallow dedup applied twice equals once |
| Dedup.CollapseKeepsHead | log_example_test.go:669-679 | an entry whose key occurs only once stays first when it was first |
| Dedup.CollapseKeepsLast | log_example_test.go:669-679 | an entry whose key occurs only once stays last when it was last |
| Dedup.CollapseTwice | log_example_test.go:567-578 | two writes of one key collapse to the second |
| Dedup.CollapseSubset | log_example_test.go:603-630 | every entry kept is one of the record's entries, so a nested object is kept or dropped whole |
| Dedup.CollapseDeepMeetsSpec | log_example_test.go:877-887 | deep dedup leaves every key once, keys ascending, and each value is the deep rewrite of the last value written |
| Dedup.CollapseDeepCanonical | log_example_test.go:811-875 | deep dedup yields every object, at every depth, with unique ascending keys |
| Dedup.CollapseDeepIdentity | log_example_test.go:800-809 | a record already in that form (unique keys in ascending order at every depth) is left unchanged; an unsorted record is reordered |
| Dedup.CollapseDeepIdempotent | log_example_test.go:877-887 | deep dedup applied twice equals once |
| Dedup.CollapseDeepOfFlat | log_example_test.go:877-887 | when no nested object needs rewriting, deep dedup is shallow dedup followed by the key sort, a permutation of the shallow result |
| Dedup.NestedDuplicateOnlyDeep | log_example_test.go:775-875 | a duplicate inside a nested object is removed by deep dedup but kept by shallow dedup |
| KeyOrder.SortPermutes | log_example_test.go:353-367 | the key sort only reorders the entries |
| KeyOrder.SortOrdered | log_example_test.go:353-367 | the key sort of a record with unique keys has ascending keys |
| KeyOrder.SortOfOrdered | log_example_test.go:353-367 | a record already in key order is its own sort |
| KeyOrder.SortKeys | log_example_test.go:353-367 | the key sort keeps the set of keys |
| KeyOrder.LessTotal | log_example_test.go:877-887 | two different keys are ordered one way or the other |
| Assembly.RawLayout | log_example_test.go:109-160 | without dedup the record is the level, the context, the fields, one entry per hook in order, then the message |
| Assembly.LevelPresence | log_example_test.go:184-193 | the level key is present exactly when the call has a level or the caller wrote that key, in every dedup mode |
| Assembly.MessagePresence | log_example_test.go:184-193 | the message key is present exactly when the message is not empty or the caller wrote that key, in every mode |
| Assembly.ShallowKeepsEnds | log_example_test.go:669-679 | under shallow dedup the level stays first and the message last, unless the caller wrote those keys |
| Assembly.DedupLastValueWins | log_example_test.go:669-679 | under either dedup mode the record holds each key once with the last value written, and under deep dedup its keys ascend |
| Assembly.DedupOfBareRecord | log_example_test.go:592-601 | a call with no fields, context or hooks is unchanged by either dedup mode |
| Assembly.ApplyKeySet | log_example_test.go:567-601 | every dedup mode keeps exactly the record's keys |
| Examples.NewExample | log_example_test.go:19-24 | the expected record of the example |
| Examples.WithExample | log_example_test.go:26-35 | the expected record of the example |
| Examples.LevelExample | log_example_test.go:37-44 | the filtered call writes nothing; the error call writes one record |
| Examples.SampleExample | log_example_test.go:46-56 | of four calls with N = 2, only messages 1 and 3 are written |
| Examples.HookExample | log_example_test.go:74-83 | the hook fields sit between the level and the message, in registration order |
| Examples.PrintExample | log_example_test.go:85-91 | the expected record of the example |
| Examples.PrintlnExample | log_example_test.go:101-107 | the expected record of the example |
| Examples.TraceExample | log_example_test.go:109-118 | the expected record of the example |
| Examples.DebugExample | log_example_test.go:120-129 | the expected record of the example |
| Examples.InfoExample | log_example_test.go:131-140 | the expected record of the example |
| Examples.WarnExample | log_example_test.go:142-150 | the expected record of the example |
| Examples.ErrorExample | log_example_test.go:152-160 | the expected record of the example |
| Examples.WithLevelExample | log_example_test.go:162-169 | the expected record of the example |
| Examples.WriteExample | log_example_test.go:171-182 | the expected record of the example, and all 12 bytes reported written |
| Examples.LogExample | log_example_test.go:184-193 | no level entry and no message entry |
| Examples.EventDictExample | log_example_test.go:195-207 | the expected record of the example |
| Examples.EventArrayExample | log_example_test.go:245-261 | the expected record of the example |
| Examples.EventArrayObjectExample | log_example_test.go:263-278 | the expected record of the example |
| Examples.EventObjectExample | log_example_test.go:280-292 | the expected record of the example |
| Examples.EventEmbedObjectExample | log_example_test.go:294-305 | the expected record of the example |
| Examples.EventFieldsMapExample | log_example_test.go:353-367 | the expected record of the example |
| Examples.EventFieldsSliceExample | log_example_test.go:369-383 | the expected record of the example |
| Examples.ContextDictExample | log_example_test.go:385-396 | the expected record of the example |
| Examples.ContextArrayExample | log_example_test.go:398-409 | the expected record of the example |
| Examples.ContextArrayObjectExample | log_example_test.go:411-426 | the expected record of the example |
| Examples.ContextObjectExample | log_example_test.go:428-440 | the expected record of the example |
| Examples.ContextEmbedObjectExample | log_example_test.go:442-454 | the expected record of the example |
| Examples.ContextFieldsMapExample | log_example_test.go:535-549 | the expected record of the example |
| Examples.ContextFieldsSliceExample | log_example_test.go:551-565 | the expected record of the example |
| Examples.ContextDeDupExample | log_example_test.go:567-578 | the expected record of the example |
| Examples.ContextDeDupUnusedExample | log_example_test.go:580-590 | both writes of the key are kept, in add order |
| Examples.ContextDeDupEmptyExample | log_example_test.go:592-601 | the expected record of the example |
| Examples.ContextDeDupDictionaryExample | log_example_test.go:603-630 | the first accepted format |
| Examples.ContextDeDupArrayExample | log_example_test.go:632-667 | the second accepted format |
| Examples.EventDeDupExample | log_example_test.go:669-679 | the expected record of the example |
| Examples.EventDeDupUnusedExample | log_example_test.go:681-690 | both writes of the key are kept, in add order |
| Examples.EventDeDupEmptyExample | log_example_test.go:692-700 | the expected record of the example |
| Examples.EventDeDupDictionaryExample | log_example_test.go:702-734 | the first accepted format |
| Examples.EventDeDupArrayExample | log_example_test.go:736-773 | the first accepted format |
| Examples.ContextDeDupDeepExample | log_example_test.go:775-786 | the expected record of the example |
| Examples.ContextDeDupDeepUnusedExample | log_example_test.go:788-798 | the expected record of the example |
| Examples.ContextDeDupDeepEmptyExample | log_example_test.go:800-809 | the expected record of the example |
| Examples.ContextDeDupDeepDictionaryExample | log_example_test.go:811-838 | the first accepted format |
| Examples.ContextDeDupDeepArrayExample | log_example_test.go:840-875 | the second accepted format |
| Examples.EventDeDupDeepExample | log_example_test.go:877-887 | the expected record of the example, with "foo" before "level" |
| Examples.EventDeDupDeepUnusedExample | log_example_test.go:889-898 | the expected record of the example |
| Examples.EventDeDupDeepEmptyExample | log_example_test.go:900-908 | the expected record of the example |
| Examples.EventDeDupDeepDictionaryExample | log_example_test.go:910-942 | the second accepted format |
| Examples.EventDeDupDeepArrayExample | log_example_test.go:943-980 | the first accepted format |

## Left out

- JSON text: the model stops at records of entries. Byte rendering, string escaping and the trailing newline are the library's encoder's concern.
- `Interface`, `Dur`, `Durs`, `IPAddr`, `IPPrefix`, `MACAddr` and `Printf` (log_example_test.go:93-99, 307-351, 456-533): they rest on reflection, duration scaling and `fmt`/`net` formatting in code that is not part of this model.
- `Time` fields: the creation time is carried as the text the examples show, `0001-01-01T00:00:00Z`.
- The event pool, atomic sampler counters and concurrent use: the sampler is a sequential counter.
- The sampler counter is unbounded; the 32-bit wrap of the library's counter is not modelled.
- BasicSampler with N = 0: the model restricts N to positive numbers; the examples use N = 2 only.
- The global level, `Fatal`/`Panic` exits and the writer error path: the examples do not use them.
- Output streams (`os.Stdout`, `bytes.Buffer`), `strings.TrimSpace` and the format-mismatch reporting in the two-format examples: these are test plumbing. Each such example gives the one output the model produces.
- The expected second format at log_example_test.go:622 and 830 (`"foo":"bam","n":3`) cannot come from those examples' inputs, so it is not encoded.
- Events.MarshalPrice: requires a nonzero denominator. With prec >= 64 the uint64 loop wraps 10^prec to 0, and the source would then panic on division by zero.
- Dedup.CollapseDeep: the ascending key sort also reorders records without duplicates (`level`, `zeta`, `message` comes out as `level`, `message`, `zeta`), so `Dedup.CollapseDeepIdentity` holds only for records already in key order at every depth; and under an event's DeDupDeep the message is not necessarily last (a hook's `the_message` sorts after `message`).
- Events.Event.Err: `Err(nil)` adds no field in the library; the model takes the error's text and always adds the "error" field, since the examples pass a non-nil error only.
- Helpers.PriceTextDenotesPrice: stated for prec 1..19. Beyond 19, the wrapped denominator is no longer a power of ten.

## Findings

| source | as written | input that shows it | evidently intended | confidence | as-written member | corrected member |
|---|---|---|---|---|---|---|
| log_example_test.go:232-233 | the fraction is written with `%d`, so its leading zeros are lost | Price{val: 6405, prec: 2, unit: "$"} gives "$64.5", which reads as 64.50 | the fraction written to exactly prec digits, "$64.05" | not executed | Helpers.PriceAsWrittenDropsZeros | Helpers.PriceTextDenotesPrice |

`Events.MarshalPrice` writes the text as written; `Helpers.PriceText` is the intended text, and `Helpers.PriceAsWrittenAgrees` says exactly when the two agree.
