/** Duplicate-key collapsing over a record.

    Shallow collapsing (DeDup) keeps, for every key, one entry: at the
    position of the key's FIRST occurrence, holding the value of its LAST
    occurrence.  It is defined as a left fold of Put over the entries, which
    is how the rewrite proceeds: a later entry for a key already kept
    overwrites the kept entry's value in place, an entry for a new key is
    appended.  Deep collapsing (DeDupDeep) does the same at the top level and
    again inside every retained object value, and inside every object found
    in a retained array, at any depth; every object it rewrites, the record
    itself included, comes out with its keys in ascending order, as a record
    that went through a map and back does.  Scalar array elements are never
    collapsed against each other, and arrays keep their order. */
module Dedup {
  import opened Record
  import opened KeyOrder

  /** Which rewrite a context or an event asked for. */
  datatype Mode = NoDedup | Shallow | Deep

  /** One step of the shallow rewrite: the entries kept so far, updated by
      the next entry e. */
  function Put(acc: seq<Entry>, e: Entry): seq<Entry>
    decreases |acc|
  {
    if acc == [] then [e]
    else if acc[0].key == e.key then [e] + acc[1..]
    else [acc[0]] + Put(acc[1..], e)
  }

  /** DeDup: the shallow rewrite of a whole record. */
  function Collapse(es: seq<Entry>): seq<Entry>
    decreases |es|
  {
    if es == [] then [] else Put(Collapse(es[..|es| - 1]), es[|es| - 1])
  }

  /** The keys of ks without repetitions, each at its first occurrence. */
  function Distinct(ks: seq<string>): seq<string>
    decreases |ks|
  {
    if ks == [] then []
    else
      var p := ks[..|ks| - 1];
      if ks[|ks| - 1] in p then Distinct(p) else Distinct(p) + [ks[|ks| - 1]]
  }

  /** The value of the last entry of es that carries key k. */
  function LastValue(es: seq<Entry>, k: string): Value
    requires k in Keys(es)
    decreases |es|
  {
    var n := |es| - 1;
    if es[n].key == k then es[n].value
    else
      KeysPrefix(es, n);
      LastValue(es[..n], k)
  }

  /** The rewrite a mode selects. */
  function Apply(mode: Mode, es: seq<Entry>): seq<Entry>
  {
    match mode
    case NoDedup => es
    case Shallow => Collapse(es)
    case Deep => CollapseDeep(es)
  }

  // ---------------------------------------------------------------------
  // Distinct

  lemma {:induction false} DistinctContents(ks: seq<string>)
    ensures forall x :: x in Distinct(ks) <==> x in ks
    ensures forall i, j | 0 <= i < j < |Distinct(ks)| :: Distinct(ks)[i] != Distinct(ks)[j]
    decreases |ks|
  {
    if ks != [] {
      var p := ks[..|ks| - 1];
      DistinctContents(p);
      assert ks == p + [ks[|ks| - 1]];
    }
  }

  /** A key sequence without repetitions is its own Distinct. */
  lemma {:induction false} DistinctOfDistinct(ks: seq<string>)
    requires forall i, j | 0 <= i < j < |ks| :: ks[i] != ks[j]
    ensures Distinct(ks) == ks
    decreases |ks|
  {
    if ks != [] {
      var p := ks[..|ks| - 1];
      DistinctOfDistinct(p);
      assert ks == p + [ks[|ks| - 1]];
    }
  }

  lemma {:induction false} DistinctHead(ks: seq<string>)
    requires ks != []
    ensures Distinct(ks) != [] && Distinct(ks)[0] == ks[0]
    decreases |ks|
  {
    var p := ks[..|ks| - 1];
    if p != [] {
      DistinctHead(p);
    }
  }

  // ---------------------------------------------------------------------
  // Put

  /** Put adds e's key at the end when it is new and keeps the key sequence
      when it is already there. */
  lemma {:induction false} PutKeys(acc: seq<Entry>, e: Entry)
    ensures Keys(Put(acc, e)) == if e.key in Keys(acc) then Keys(acc) else Keys(acc) + [e.key]
    decreases |acc|
  {
    if acc != [] {
      PutKeys(acc[1..], e);
      assert Keys(acc) == [acc[0].key] + Keys(acc[1..]);
      if acc[0].key == e.key {
        assert Keys([e] + acc[1..]) == [e.key] + Keys(acc[1..]);
      } else {
        assert Keys([acc[0]] + Put(acc[1..], e)) == [acc[0].key] + Keys(Put(acc[1..], e));
      }
    }
  }

  /** On a record with unique keys, Put overwrites the value of e's key (or
      appends e) and leaves every other entry alone. */
  lemma {:induction false} PutEntries(acc: seq<Entry>, e: Entry)
    requires UniqueKeys(acc)
    ensures UniqueKeys(Put(acc, e))
    ensures |Put(acc, e)| == if e.key in Keys(acc) then |acc| else |acc| + 1
    ensures forall i | 0 <= i < |Put(acc, e)| ::
      if Put(acc, e)[i].key == e.key then Put(acc, e)[i] == e else i < |acc| && Put(acc, e)[i] == acc[i]
    decreases |acc|
  {
    PutKeys(acc, e);
    var r := Put(acc, e);
    assert |Keys(r)| == |r| && |Keys(acc)| == |acc|;
    if acc != [] {
      assert Keys(acc) == [acc[0].key] + Keys(acc[1..]);
      PutEntries(acc[1..], e);
      if acc[0].key == e.key {
        assert e.key !in Keys(acc[1..]);
      } else {
        var t := Put(acc[1..], e);
        assert r == [acc[0]] + t;
        PutKeys(acc[1..], e);
        assert acc[0].key !in Keys(t) by {
          assert acc[0].key !in Keys(acc[1..]);
        }
        forall i, j | 0 <= i < j < |r| ensures r[i].key != r[j].key {
          if i == 0 {
            assert r[j] == t[j - 1];
            KeyIn(t, j - 1);
          }
        }
      }
    }
  }

  // ---------------------------------------------------------------------
  // Collapse against its reference characterization

  /** The characterization of DeDup: one entry per key, in first-occurrence
      order, each holding the last value written for its key. */
  ghost predicate CollapsedFrom(r: seq<Entry>, es: seq<Entry>)
  {
    && Keys(r) == Distinct(Keys(es))
    && forall i | 0 <= i < |r| :: r[i].key in Keys(es) && r[i].value == LastValue(es, r[i].key)
  }

  lemma {:induction false} CollapseMeetsSpec(es: seq<Entry>)
    ensures UniqueKeys(Collapse(es))
    ensures CollapsedFrom(Collapse(es), es)
    decreases |es|
  {
    if es != [] {
      var n := |es| - 1;
      var p, e := es[..n], es[n];
      assert es == p + [e];
      var c := Collapse(p);
      CollapseMeetsSpec(p);
      PutEntries(c, e);
      PutKeys(c, e);
      KeysAppend(p, e);
      DistinctContents(Keys(p));
      assert Keys(es)[..n] == Keys(p);
      assert e.key in Keys(c) <==> e.key in Keys(p);
      var r := Put(c, e);
      forall i | 0 <= i < |r|
        ensures r[i].key in Keys(es) && r[i].value == LastValue(es, r[i].key)
      {
        if r[i].key == e.key {
          assert r[i] == e;
        } else {
          assert r[i] == c[i];
          KeyIn(c, i);
          assert r[i].key in Keys(p);
        }
      }
    }
  }

  /** DeDup leaves every key with exactly one entry, holding the last value
      written for that key, and introduces no key the record did not have. */
  lemma CollapseLastValueWins(es: seq<Entry>, k: string)
    requires k in Keys(es)
    ensures Occurrences(Collapse(es), k) == 1
    ensures exists i :: 0 <= i < |Collapse(es)| && Collapse(es)[i] == Entry(k, LastValue(es, k))
  {
    CollapseMeetsSpec(es);
    var r := Collapse(es);
    DistinctContents(Keys(es));
    assert k in Keys(r);
    var i :| 0 <= i < |r| && Keys(r)[i] == k;
    assert r[i] == Entry(k, LastValue(es, k));
    UniqueKeysOccurrences(r);
  }

  /** DeDup keeps exactly the keys of the record. */
  lemma CollapseKeySet(es: seq<Entry>, k: string)
    ensures k in Keys(Collapse(es)) <==> k in Keys(es)
  {
    CollapseMeetsSpec(es);
    DistinctContents(Keys(es));
  }

  /** The characterization determines DeDup's result: Collapse(es) is the
      only sequence that meets it. */
  lemma CollapseIsUnique(es: seq<Entry>, r: seq<Entry>)
    ensures CollapsedFrom(r, es) <==> r == Collapse(es)
  {
    CollapseMeetsSpec(es);
    if CollapsedFrom(r, es) {
      var c := Collapse(es);
      assert |r| == |Keys(r)| == |Keys(c)| == |c|;
      forall i | 0 <= i < |r| ensures r[i] == c[i] {
        assert Keys(r)[i] == Keys(c)[i];
      }
    }
  }

  /** A record without duplicate keys passes through DeDup unchanged. */
  lemma {:induction false} CollapseUnique(es: seq<Entry>)
    requires UniqueKeys(es)
    ensures Collapse(es) == es
    decreases |es|
  {
    if es != [] {
      var n := |es| - 1;
      var p, e := es[..n], es[n];
      CollapseUnique(p);
      assert e.key !in Keys(p);
      PutKeys(p, e);
      PutEntries(p, e);
      assert Put(p, e) == p + [e];
      assert es == p + [e];
    }
  }

  /** DeDup is idempotent. */
  lemma CollapseIdempotent(es: seq<Entry>)
    ensures Collapse(Collapse(es)) == Collapse(es)
  {
    CollapseMeetsSpec(es);
    CollapseUnique(Collapse(es));
  }

  /** The first entry keeps its place: when the record's first key occurs
      nowhere else (the level field of an event, for instance), DeDup leaves
      that entry first and untouched. */
  lemma CollapseKeepsHead(es: seq<Entry>)
    requires es != []
    requires Occurrences(es, es[0].key) == 1
    ensures Collapse(es) != [] && Collapse(es)[0] == es[0]
  {
    CollapseMeetsSpec(es);
    var r := Collapse(es);
    DistinctHead(Keys(es));
    assert Keys(es)[0] == es[0].key;
    assert r[0].key == es[0].key;
    LastValueSingle(es, 0);
  }

  /** The last entry keeps its place: when the record's last key occurs
      nowhere else (the message field), DeDup leaves that entry last and
      untouched. */
  lemma CollapseKeepsLast(es: seq<Entry>)
    requires es != []
    requires Occurrences(es, es[|es| - 1].key) == 1
    ensures Collapse(es) != [] && Collapse(es)[|Collapse(es)| - 1] == es[|es| - 1]
  {
    var n := |es| - 1;
    var p, e := es[..n], es[n];
    assert es == p + [e];
    OccurrencesPositive(p, e.key);
    CollapseKeySet(p, e.key);
    CollapseMeetsSpec(p);
    var c := Collapse(p);
    PutKeys(c, e);
    PutEntries(c, e);
    var r := Put(c, e);
    assert |r| == |c| + 1;
    assert Keys(r)[|c|] == e.key;
  }

  /** When a key occurs once, its entry is its last one. */
  lemma {:induction false} LastValueSingle(es: seq<Entry>, i: nat)
    requires i < |es| && Occurrences(es, es[i].key) == 1
    ensures es[i].key in Keys(es) && LastValue(es, es[i].key) == es[i].value
    decreases |es|
  {
    KeyIn(es, i);
    var n := |es| - 1;
    var p := es[..n];
    if i < n {
      assert es == p + [es[n]];
      assert p[i] == es[i];
      KeyIn(p, i);
      OccurrencesPositive(p, es[i].key);
      assert es[n].key != es[i].key;
      LastValueSingle(p, i);
    }
  }

  /** Last value wins: the same key written twice keeps only the second value. */
  lemma CollapseTwice(k: string, v1: Value, v2: Value)
    ensures Collapse([Entry(k, v1), Entry(k, v2)]) == [Entry(k, v2)]
  {
    assert [Entry(k, v1), Entry(k, v2)][..1] == [Entry(k, v1)];
    assert [Entry(k, v1)][..0] == [];
    assert Collapse([Entry(k, v1)]) == [Entry(k, v1)];
  }

  /** Every entry DeDup keeps is an entry of the record. */
  lemma CollapseSubset(es: seq<Entry>)
    ensures forall e | e in Collapse(es) :: e in es
  {
    CollapseMeetsSpec(es);
    forall e | e in Collapse(es) ensures e in es {
      var i :| 0 <= i < |Collapse(es)| && Collapse(es)[i] == e;
      assert e.key in Keys(es);
      var j := LastIndex(es, e.key);
    }
  }

  /** The index of the entry LastValue reads. */
  lemma {:induction false} LastIndex(es: seq<Entry>, k: string) returns (j: nat)
    requires k in Keys(es)
    ensures j < |es| && es[j] == Entry(k, LastValue(es, k))
    decreases |es|
  {
    var n := |es| - 1;
    if es[n].key == k {
      j := n;
    } else {
      KeysPrefix(es, n);
      j := LastIndex(es[..n], k);
    }
  }

  // ---------------------------------------------------------------------
  // Deep collapsing

  /** DeDupDeep applied to one value: objects are collapsed (after their own
      values) and sorted by key, arrays are traversed element by element,
      scalars stay. */
  function DeepValue(v: Value): Value
    decreases v
  {
    match v
    case Obj(fs) => Obj(SortByKey(Collapse(DeepFields(fs))))
    case Arr(items) => Arr(DeepItems(items))
    case _ => v
  }

  /** Every value of a record, deep-collapsed; keys and order unchanged. */
  function DeepFields(fs: seq<Entry>): seq<Entry>
    decreases fs
  {
    if fs == [] then [] else [Entry(fs[0].key, DeepValue(fs[0].value))] + DeepFields(fs[1..])
  }

  function DeepItems(vs: seq<Value>): seq<Value>
    decreases vs
  {
    if vs == [] then [] else [DeepValue(vs[0])] + DeepItems(vs[1..])
  }

  /** DeDupDeep: the deep rewrite of a whole record. */
  function CollapseDeep(es: seq<Entry>): seq<Entry>
  {
    SortByKey(Collapse(DeepFields(es)))
  }

  /** The form the deep rewrite produces: every object, at any depth, holds
      its keys once each, in ascending order. */
  predicate Canonical(v: Value)
    decreases v
  {
    match v
    case Obj(fs) => Ordered(fs) && CanonicalValues(fs)
    case Arr(items) => CanonicalItems(items)
    case _ => true
  }

  predicate CanonicalValues(fs: seq<Entry>)
    decreases fs
  {
    fs == [] || (Canonical(fs[0].value) && CanonicalValues(fs[1..]))
  }

  predicate CanonicalItems(vs: seq<Value>)
    decreases vs
  {
    vs == [] || (Canonical(vs[0]) && CanonicalItems(vs[1..]))
  }

  /** A record in the deep rewrite's form. */
  predicate CanonicalFields(fs: seq<Entry>)
  {
    Ordered(fs) && CanonicalValues(fs)
  }

  lemma {:induction false} CanonicalValuesAt(fs: seq<Entry>)
    ensures CanonicalValues(fs) <==> forall i | 0 <= i < |fs| :: Canonical(fs[i].value)
    decreases |fs|
  {
    if fs != [] {
      CanonicalValuesAt(fs[1..]);
      if forall i | 0 <= i < |fs| :: Canonical(fs[i].value) {
        assert forall i | 0 <= i < |fs[1..]| :: fs[1..][i] == fs[i + 1];
      }
    }
  }

  lemma {:induction false} CanonicalItemsAt(vs: seq<Value>)
    ensures CanonicalItems(vs) <==> forall i | 0 <= i < |vs| :: Canonical(vs[i])
    decreases |vs|
  {
    if vs != [] {
      CanonicalItemsAt(vs[1..]);
      if forall i | 0 <= i < |vs| :: Canonical(vs[i]) {
        assert forall i | 0 <= i < |vs[1..]| :: vs[1..][i] == vs[i + 1];
      }
    }
  }

  lemma {:induction false} DeepFieldsAt(fs: seq<Entry>)
    ensures |DeepFields(fs)| == |fs|
    ensures forall i | 0 <= i < |fs| :: DeepFields(fs)[i] == Entry(fs[i].key, DeepValue(fs[i].value))
    decreases |fs|
  {
    if fs != [] {
      DeepFieldsAt(fs[1..]);
    }
  }

  lemma {:induction false} DeepItemsAt(vs: seq<Value>)
    ensures |DeepItems(vs)| == |vs|
    ensures forall i | 0 <= i < |vs| :: DeepItems(vs)[i] == DeepValue(vs[i])
    decreases |vs|
  {
    if vs != [] {
      DeepItemsAt(vs[1..]);
    }
  }

  lemma DeepFieldsKeys(fs: seq<Entry>)
    ensures Keys(DeepFields(fs)) == Keys(fs)
  {
    DeepFieldsAt(fs);
  }

  /** The deep rewrite of a retained entry reads the deep rewrite of that
      key's last value. */
  lemma {:induction false} DeepFieldsLastValue(fs: seq<Entry>, k: string)
    requires k in Keys(fs)
    ensures k in Keys(DeepFields(fs))
    ensures LastValue(DeepFields(fs), k) == DeepValue(LastValue(fs, k))
    decreases |fs|
  {
    DeepFieldsKeys(fs);
    DeepFieldsAt(fs);
    var n := |fs| - 1;
    if fs[n].key != k {
      KeysPrefix(fs, n);
      var p := fs[..n];
      DeepFieldsAt(p);
      assert DeepFields(fs)[..n] == DeepFields(p);
      DeepFieldsLastValue(p, k);
    }
  }

  /** DeDupDeep is "shallow first, then recurse into what is retained, then
      sort": one entry per key, keys ascending, exactly the record's keys,
      each entry holding the deep rewrite of the last value written for its
      key. */
  lemma CollapseDeepMeetsSpec(es: seq<Entry>)
    ensures Ordered(CollapseDeep(es)) && UniqueKeys(CollapseDeep(es))
    ensures forall k :: k in Keys(CollapseDeep(es)) <==> k in Keys(es)
    ensures forall i | 0 <= i < |CollapseDeep(es)| ::
      CollapseDeep(es)[i].key in Keys(es) &&
      CollapseDeep(es)[i].value == DeepValue(LastValue(es, CollapseDeep(es)[i].key))
  {
    var d := DeepFields(es);
    var r := Collapse(d);
    var s := SortByKey(r);
    CollapseMeetsSpec(d);
    DeepFieldsKeys(es);
    DistinctContents(Keys(es));
    SortOrdered(r);
    OrderedUnique(s);
    SortKeys(r);
    SortPermutes(r);
    forall i | 0 <= i < |s|
      ensures s[i].key in Keys(es) && s[i].value == DeepValue(LastValue(es, s[i].key))
    {
      assert s[i] in multiset(r);
      var j :| 0 <= j < |r| && r[j] == s[i];
      KeyIn(r, j);
      DeepFieldsLastValue(es, s[i].key);
    }
  }

  /** The deep rewrite of any value is in canonical form. */
  lemma {:induction false} DeepValueCanonical(v: Value)
    ensures Canonical(DeepValue(v))
    decreases v
  {
    match v
    case Obj(fs) =>
      DeepFieldsCanonical(fs);
    case Arr(items) =>
      DeepItemsAt(items);
      forall i | 0 <= i < |items| ensures Canonical(DeepItems(items)[i]) {
        DeepValueCanonical(items[i]);
      }
      CanonicalItemsAt(DeepItems(items));
    case _ =>
  }

  lemma {:induction false} DeepFieldsCanonical(fs: seq<Entry>)
    ensures CanonicalFields(SortByKey(Collapse(DeepFields(fs))))
    decreases fs
  {
    var d := DeepFields(fs);
    var r := Collapse(d);
    var s := SortByKey(r);
    CollapseMeetsSpec(d);
    SortOrdered(r);
    SortPermutes(r);
    DeepFieldsAt(fs);
    CollapseSubset(d);
    forall i | 0 <= i < |s| ensures Canonical(s[i].value) {
      assert s[i] in multiset(r);
      assert s[i] in d;
      var j :| 0 <= j < |d| && d[j] == s[i];
      DeepValueCanonical(fs[j].value);
    }
    CanonicalValuesAt(s);
  }

  /** DeDupDeep leaves every object, at any depth, with unique keys in
      ascending order. */
  lemma CollapseDeepCanonical(es: seq<Entry>)
    ensures CanonicalFields(CollapseDeep(es))
  {
    DeepFieldsCanonical(es);
  }

  /** A value already in canonical form passes through the deep rewrite
      unchanged. */
  lemma {:induction false} DeepValueIdentity(v: Value)
    requires Canonical(v)
    ensures DeepValue(v) == v
    decreases v
  {
    match v
    case Obj(fs) =>
      DeepFieldsIdentity(fs);
      OrderedUnique(fs);
      CollapseUnique(fs);
      SortOfOrdered(fs);
    case Arr(items) =>
      DeepItemsAt(items);
      CanonicalItemsAt(items);
      forall i | 0 <= i < |items| ensures DeepItems(items)[i] == items[i] {
        DeepValueIdentity(items[i]);
      }
    case _ =>
  }

  lemma {:induction false} DeepFieldsIdentity(fs: seq<Entry>)
    requires CanonicalValues(fs)
    ensures DeepFields(fs) == fs
    decreases fs
  {
    DeepFieldsAt(fs);
    CanonicalValuesAt(fs);
    forall i | 0 <= i < |fs| ensures DeepFields(fs)[i] == fs[i] {
      DeepValueIdentity(fs[i].value);
    }
  }

  /** A record already in canonical form passes through DeDupDeep
      unchanged. */
  lemma CollapseDeepIdentity(es: seq<Entry>)
    requires CanonicalFields(es)
    ensures CollapseDeep(es) == es
  {
    DeepFieldsIdentity(es);
    OrderedUnique(es);
    CollapseUnique(es);
    SortOfOrdered(es);
  }

  /** DeDupDeep is idempotent. */
  lemma CollapseDeepIdempotent(es: seq<Entry>)
    ensures CollapseDeep(CollapseDeep(es)) == CollapseDeep(es)
  {
    CollapseDeepCanonical(es);
    CollapseDeepIdentity(CollapseDeep(es));
  }

  /** On a record whose values are already canonical (a record of scalars,
      say), DeDupDeep keeps the entries DeDup keeps and only sorts them. */
  lemma CollapseDeepOfFlat(es: seq<Entry>)
    requires CanonicalValues(es)
    ensures CollapseDeep(es) == SortByKey(Collapse(es))
    ensures multiset(CollapseDeep(es)) == multiset(Collapse(es))
  {
    DeepFieldsIdentity(es);
    SortPermutes(Collapse(es));
  }

  /** Deep recursion matters: a retained object holding its own duplicate key
      is collapsed by DeDupDeep and left as it is by DeDup. */
  lemma NestedDuplicateOnlyDeep()
    ensures Collapse([Entry("dict", Obj([Entry("foo", Str("bar")), Entry("foo", Str("baz"))]))])
         == [Entry("dict", Obj([Entry("foo", Str("bar")), Entry("foo", Str("baz"))]))]
    ensures CollapseDeep([Entry("dict", Obj([Entry("foo", Str("bar")), Entry("foo", Str("baz"))]))])
         == [Entry("dict", Obj([Entry("foo", Str("baz"))]))]
  {
    var inner := [Entry("foo", Str("bar")), Entry("foo", Str("baz"))];
    assert DeepFields(inner) == inner;
    CollapseTwice("foo", Str("bar"), Str("baz"));
    assert DeepValue(Obj(inner)) == Obj([Entry("foo", Str("baz"))]);
  }
}
