/**
 * Order-preserving, first-wins de-duplication by key. Both the catalog's index parsers and the
 * log-attribute merge are instances of it.
 */
module FirstOccurrence {

  /** Is `k` the key of one of `items`? */
  predicate HasKey<T>(key: T -> string, items: seq<T>, k: string) {
    exists i :: 0 <= i < |items| && key(items[i]) == k
  }

  /** `items` with every element dropped whose key an earlier element already has. */
  function Dedup<T>(key: T -> string, items: seq<T>): seq<T> {
    if items == [] then []
    else
      var front, last := items[..|items| - 1], items[|items| - 1];
      Dedup(key, front) + if HasKey(key, front, key(last)) then [] else [last]
  }

  /** Position of the first element with key `k`. */
  function FirstIndex<T>(key: T -> string, items: seq<T>, k: string): (i: nat)
    requires HasKey(key, items, k)
    ensures i < |items| && key(items[i]) == k
    ensures forall j :: 0 <= j < i ==> key(items[j]) != k
  {
    if key(items[0]) == k then 0
    else
      assert HasKey(key, items[1..], k) by {
        var i :| 0 <= i < |items| && key(items[i]) == k;
        assert items[1..][i - 1] == items[i];
      }
      1 + FirstIndex(key, items[1..], k)
  }

  /** The same keys, each once. */
  predicate SameKeysOnce<T>(key: T -> string, items: seq<T>, result: seq<T>) {
    && (forall i, j :: 0 <= i < j < |result| ==> key(result[i]) != key(result[j]))
    && (forall i :: 0 <= i < |items| ==> HasKey(key, result, key(items[i])))
    && (forall i :: 0 <= i < |result| ==> HasKey(key, items, key(result[i])))
  }

  /** Every kept element is the first one with its key, and kept elements stay in input order. */
  ghost predicate FirstsInOrder<T>(key: T -> string, items: seq<T>, result: seq<T>)
    requires forall i :: 0 <= i < |result| ==> HasKey(key, items, key(result[i]))
  {
    && (forall i :: 0 <= i < |result| ==> result[i] == items[FirstIndex(key, items, key(result[i]))])
    && (forall i, j :: 0 <= i < j < |result| ==>
          FirstIndex(key, items, key(result[i])) < FirstIndex(key, items, key(result[j])))
  }

  /** One more input element: the two ways a step of the de-duplication can go. */
  lemma DedupStep<T>(key: T -> string, items: seq<T>, more: T)
    ensures Dedup(key, items + [more]) ==
            Dedup(key, items) + if HasKey(key, items, key(more)) then [] else [more]
  {
  }

  lemma HasKeyOfExtension<T>(key: T -> string, items: seq<T>, more: T, k: string)
    ensures HasKey(key, items + [more], k) <==> HasKey(key, items, k) || key(more) == k
  {
    var all := items + [more];
    if HasKey(key, items, k) {
      var i :| 0 <= i < |items| && key(items[i]) == k;
      assert all[i] == items[i];
    }
    if key(more) == k {
      assert all[|items|] == more;
    }
  }

  lemma FirstIndexOfExtension<T>(key: T -> string, items: seq<T>, more: T, k: string)
    requires HasKey(key, items + [more], k)
    ensures FirstIndex(key, items + [more], k) ==
            if HasKey(key, items, k) then FirstIndex(key, items, k) else |items|
  {
    var all := items + [more];
    var j := FirstIndex(key, all, k);
    assert forall i :: 0 <= i < |items| ==> all[i] == items[i];
    if HasKey(key, items, k) {
      var i := FirstIndex(key, items, k);
      assert key(all[i]) == k;
    }
  }

  lemma {:induction false} DedupKeys<T>(key: T -> string, items: seq<T>)
    ensures SameKeysOnce(key, items, Dedup(key, items))
  {
    if items == [] {
    } else {
      var front, last := items[..|items| - 1], items[|items| - 1];
      DedupKeys(key, front);
      assert items == front + [last];
      SameKeysStep(key, front, last, Dedup(key, front));
    }
  }

  lemma SameKeysStep<T>(key: T -> string, front: seq<T>, last: T, kept: seq<T>)
    requires SameKeysOnce(key, front, kept)
    ensures SameKeysOnce(key, front + [last], kept + if HasKey(key, front, key(last)) then [] else [last])
  {
    var items := front + [last];
    var known := HasKey(key, front, key(last));
    var result := kept + if known then [] else [last];
    forall k: string ensures HasKey(key, kept, k) <==> HasKey(key, front, k) {
    }
    forall k: string
      ensures HasKey(key, items, k) <==> HasKey(key, front, k) || key(last) == k
      ensures HasKey(key, result, k) <==> HasKey(key, kept, k) || (!known && key(last) == k)
    {
      HasKeyOfExtension(key, front, last, k);
      if known { assert result == kept; } else { HasKeyOfExtension(key, kept, last, k); }
    }
    forall i | 0 <= i < |items| ensures HasKey(key, items, key(items[i])) {
    }
    forall i | 0 <= i < |result| ensures HasKey(key, result, key(result[i])) {
    }
  }

  lemma {:induction false} DedupOrder<T>(key: T -> string, items: seq<T>)
    ensures SameKeysOnce(key, items, Dedup(key, items))
    ensures FirstsInOrder(key, items, Dedup(key, items))
  {
    DedupKeys(key, items);
    if items != [] {
      var front, last := items[..|items| - 1], items[|items| - 1];
      DedupOrder(key, front);
      assert items == front + [last];
      OrderStep(key, front, last, Dedup(key, front));
    }
  }

  lemma OrderStep<T>(key: T -> string, front: seq<T>, last: T, kept: seq<T>)
    requires SameKeysOnce(key, front, kept) && FirstsInOrder(key, front, kept)
    requires SameKeysOnce(key, front + [last], kept + if HasKey(key, front, key(last)) then [] else [last])
    ensures FirstsInOrder(key, front + [last], kept + if HasKey(key, front, key(last)) then [] else [last])
  {
    var items := front + [last];
    var result := kept + if HasKey(key, front, key(last)) then [] else [last];
    forall i | 0 <= i < |result|
      ensures FirstIndex(key, items, key(result[i])) ==
              if i < |kept| then FirstIndex(key, front, key(kept[i])) else |front|
    {
      FirstIndexOfExtension(key, front, last, key(result[i]));
    }
  }
}
