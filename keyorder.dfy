/** Key order.  A record that is decoded into a Go map and encoded again
    comes out with its keys in ascending string order, compared character by
    character (a proper prefix sorts first).  This module holds that order
    and an insertion sort of a record's entries by key. */
module KeyOrder {
  import opened Record

  /** a sorts strictly before b. */
  predicate Less(a: string, b: string)
    decreases |b|
  {
    if b == [] then false
    else if a == [] then true
    else if a[0] != b[0] then a[0] < b[0]
    else Less(a[1..], b[1..])
  }

  lemma {:induction false} LessIrreflexive(a: string)
    ensures !Less(a, a)
    decreases |a|
  {
    if a != [] {
      LessIrreflexive(a[1..]);
    }
  }

  lemma {:induction false} LessAsymmetric(a: string, b: string)
    requires Less(a, b)
    ensures !Less(b, a)
    decreases |b|
  {
    if a != [] && a[0] == b[0] {
      LessAsymmetric(a[1..], b[1..]);
    }
  }

  lemma {:induction false} LessTransitive(a: string, b: string, c: string)
    requires Less(a, b) && Less(b, c)
    ensures Less(a, c)
    decreases |c|
  {
    if a != [] && a[0] == b[0] && b[0] == c[0] {
      LessTransitive(a[1..], b[1..], c[1..]);
    }
  }

  /** Two different keys are always ordered one way or the other. */
  lemma {:induction false} LessTotal(a: string, b: string)
    requires a != b
    ensures Less(a, b) || Less(b, a)
    decreases |a|
  {
    if a != [] && b != [] && a[0] == b[0] {
      assert a == [a[0]] + a[1..] && b == [b[0]] + b[1..];
      LessTotal(a[1..], b[1..]);
    }
  }

  /** Keys ascend strictly along the record. */
  predicate Ordered(es: seq<Entry>)
  {
    forall i, j | 0 <= i < j < |es| :: Less(es[i].key, es[j].key)
  }

  /** Insert e in front of the first entry whose key does not sort before
      e's key. */
  function Insert(e: Entry, es: seq<Entry>): seq<Entry>
    decreases |es|
  {
    if es == [] || !Less(es[0].key, e.key) then [e] + es
    else [es[0]] + Insert(e, es[1..])
  }

  /** The entries of es sorted by key. */
  function SortByKey(es: seq<Entry>): seq<Entry>
    decreases |es|
  {
    if es == [] then [] else Insert(es[0], SortByKey(es[1..]))
  }

  lemma {:induction false} InsertPermutes(e: Entry, es: seq<Entry>)
    ensures multiset(Insert(e, es)) == multiset(es) + multiset{e}
    decreases |es|
  {
    if es != [] && Less(es[0].key, e.key) {
      InsertPermutes(e, es[1..]);
      assert es == [es[0]] + es[1..];
    }
  }

  /** Sorting only reorders the entries. */
  lemma {:induction false} SortPermutes(es: seq<Entry>)
    ensures multiset(SortByKey(es)) == multiset(es)
    decreases |es|
  {
    if es != [] {
      SortPermutes(es[1..]);
      InsertPermutes(es[0], SortByKey(es[1..]));
      assert es == [es[0]] + es[1..];
    }
  }

  /** Ordered, one entry at the front at a time. */
  lemma OrderedCons(e: Entry, es: seq<Entry>)
    ensures Ordered([e] + es) <==> Ordered(es) && forall x | x in es :: Less(e.key, x.key)
  {
    var s := [e] + es;
    if Ordered(s) {
      forall i, j | 0 <= i < j < |es| ensures Less(es[i].key, es[j].key) {
        assert s[i + 1] == es[i] && s[j + 1] == es[j];
      }
      forall x | x in es ensures Less(e.key, x.key) {
        var j :| 0 <= j < |es| && es[j] == x;
        assert s[0] == e && s[j + 1] == x;
      }
    }
  }

  /** Inserting a key not yet present keeps the record ordered. */
  lemma {:induction false} InsertOrdered(e: Entry, es: seq<Entry>)
    requires Ordered(es) && forall x | x in es :: x.key != e.key
    ensures Ordered(Insert(e, es))
    decreases |es|
  {
    if es == [] {
    } else if !Less(es[0].key, e.key) {
      LessTotal(e.key, es[0].key);
      OrderedCons(es[0], es[1..]);
      assert es == [es[0]] + es[1..];
      forall x | x in es ensures Less(e.key, x.key) {
        if x != es[0] {
          LessTransitive(e.key, es[0].key, x.key);
        }
      }
      OrderedCons(e, es);
    } else {
      assert es == [es[0]] + es[1..];
      OrderedCons(es[0], es[1..]);
      InsertOrdered(e, es[1..]);
      InsertPermutes(e, es[1..]);
      forall x | x in Insert(e, es[1..]) ensures Less(es[0].key, x.key) {
        assert x in multiset(es[1..]) + multiset{e};
      }
      OrderedCons(es[0], Insert(e, es[1..]));
    }
  }

  /** An ordered record holds every key once. */
  lemma OrderedUnique(es: seq<Entry>)
    requires Ordered(es)
    ensures UniqueKeys(es)
  {
    forall i, j | 0 <= i < j < |es| ensures es[i].key != es[j].key {
      if es[i].key == es[j].key {
        LessIrreflexive(es[i].key);
      }
    }
  }

  /** A record with unique keys comes out of the sort ordered. */
  lemma {:induction false} SortOrdered(es: seq<Entry>)
    requires UniqueKeys(es)
    ensures Ordered(SortByKey(es))
    decreases |es|
  {
    if es != [] {
      var t := es[1..];
      assert UniqueKeys(t) by {
        forall i, j | 0 <= i < j < |t| ensures t[i].key != t[j].key {
          assert t[i] == es[i + 1] && t[j] == es[j + 1];
        }
      }
      SortOrdered(t);
      SortPermutes(t);
      forall x | x in SortByKey(t) ensures x.key != es[0].key {
        assert x in multiset(t);
        var j :| 0 <= j < |t| && t[j] == x;
        assert es[j + 1] == x;
      }
      InsertOrdered(es[0], SortByKey(t));
    }
  }

  /** An ordered record is its own sort. */
  lemma {:induction false} SortOfOrdered(es: seq<Entry>)
    requires Ordered(es)
    ensures SortByKey(es) == es
    decreases |es|
  {
    if es != [] {
      assert es == [es[0]] + es[1..];
      OrderedCons(es[0], es[1..]);
      SortOfOrdered(es[1..]);
      if |es| > 1 {
        assert es[1] in es[1..];
        LessAsymmetric(es[0].key, es[1].key);
      }
    }
  }

  /** Sorting keeps the set of keys. */
  lemma SortKeys(es: seq<Entry>)
    ensures forall k :: k in Keys(SortByKey(es)) <==> k in Keys(es)
  {
    SortPermutes(es);
    var s := SortByKey(es);
    forall k | k in Keys(s) ensures k in Keys(es) {
      var i :| 0 <= i < |s| && Keys(s)[i] == k;
      assert s[i] in multiset(es);
      var j :| 0 <= j < |es| && es[j] == s[i];
      KeyIn(es, j);
    }
    forall k | k in Keys(es) ensures k in Keys(s) {
      var j :| 0 <= j < |es| && Keys(es)[j] == k;
      assert es[j] in multiset(s);
      var i :| 0 <= i < |s| && s[i] == es[j];
      KeyIn(s, i);
    }
  }
}
