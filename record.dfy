/** The abstract log record: what an event's buffer holds once its bytes are
    read back as the inner content of a JSON object (section 4 of RFC 8259).
    A record is an ordered sequence of "key":value entries; a value is a string,
    an integer, a nested object or an array.  The byte-level encoding of these
    entries belongs to the encoder and is not part of this model. */
module Record {

  datatype Value =
    | Str(s: string)
    | Int(i: int)
    | Obj(fields: seq<Entry>)
    | Arr(items: seq<Value>)

  datatype Entry = Entry(key: string, value: Value)

  /** Reserved field names of the record. */
  const LevelFieldName := "level"
  const MessageFieldName := "message"
  const ErrorFieldName := "error"

  /** The keys of a record, in record order. */
  function Keys(es: seq<Entry>): seq<string>
  {
    seq(|es|, i requires 0 <= i < |es| => es[i].key)
  }

  /** No key occurs twice at the top level of the record. */
  predicate UniqueKeys(es: seq<Entry>)
  {
    forall i, j | 0 <= i < j < |es| :: es[i].key != es[j].key
  }

  /** The number of entries of a record carrying key k. */
  function Occurrences(es: seq<Entry>, k: string): nat
  {
    if es == [] then 0
    else Occurrences(es[..|es| - 1], k) + (if es[|es| - 1].key == k then 1 else 0)
  }

  lemma KeysPrefix(es: seq<Entry>, n: nat)
    requires n <= |es|
    ensures Keys(es[..n]) == Keys(es)[..n]
  {
  }

  lemma KeysAppend(es: seq<Entry>, e: Entry)
    ensures Keys(es + [e]) == Keys(es) + [e.key]
  {
  }

  lemma KeysConcat(a: seq<Entry>, b: seq<Entry>)
    ensures Keys(a + b) == Keys(a) + Keys(b)
  {
  }

  lemma KeyIn(es: seq<Entry>, i: nat)
    requires i < |es|
    ensures es[i].key in Keys(es)
  {
    assert Keys(es)[i] == es[i].key;
  }

  /** A key occurs in the key sequence exactly when some entry carries it. */
  lemma {:induction false} OccurrencesPositive(es: seq<Entry>, k: string)
    ensures Occurrences(es, k) > 0 <==> k in Keys(es)
  {
    if es != [] {
      var p := es[..|es| - 1];
      OccurrencesPositive(p, k);
      assert es == p + [es[|es| - 1]];
      KeysAppend(p, es[|es| - 1]);
    }
  }

  /** A record has unique keys exactly when every key occurs at most once. */
  lemma {:induction false} UniqueKeysOccurrences(es: seq<Entry>)
    ensures UniqueKeys(es) <==> forall i | 0 <= i < |es| :: Occurrences(es, es[i].key) == 1
  {
    if es != [] {
      var n := |es| - 1;
      var p := es[..n];
      UniqueKeysOccurrences(p);
      assert es == p + [es[n]];
      KeysAppend(p, es[n]);
      OccurrencesPositive(p, es[n].key);
      if UniqueKeys(es) {
        assert UniqueKeys(p);
        assert es[n].key !in Keys(p);
        forall i | 0 <= i < |es|
          ensures Occurrences(es, es[i].key) == 1
        {
          if i < n {
            assert es[i].key != es[n].key;
          }
        }
      } else {
        var i, j :| 0 <= i < j < |es| && es[i].key == es[j].key;
        if j < n {
          // the duplicate lies in the prefix
          assert p[i].key == p[j].key;
          var i' :| 0 <= i' < |p| && Occurrences(p, p[i'].key) != 1;
          assert Occurrences(es, es[i'].key) != 1 by {
            KeyIn(p, i');
            OccurrencesPositive(p, p[i'].key);
          }
        } else {
          KeyIn(p, i);
          assert Occurrences(es, es[n].key) >= 2;
        }
      }
    }
  }
}
