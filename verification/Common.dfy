/** Small value types and sequence facts shared by every other module. */
module Common {

  datatype Option<+T> = None | Some(value: T)

  /** The concatenation of a list of lists, in order. */
  function Flatten<T>(parts: seq<seq<T>>): (all: seq<T>)
  {
    if parts == [] then [] else parts[0] + Flatten(parts[1..])
  }

  lemma {:induction false} FlattenAppend<T>(a: seq<seq<T>>, b: seq<seq<T>>)
    ensures Flatten(a + b) == Flatten(a) + Flatten(b)
  {
    if a == [] {
      assert a + b == b;
    } else {
      assert (a + b)[1..] == a[1..] + b;
      FlattenAppend(a[1..], b);
    }
  }

  lemma FlattenSnoc<T>(a: seq<seq<T>>, last: seq<T>)
    ensures Flatten(a + [last]) == Flatten(a) + last
  {
    FlattenAppend(a, [last]);
    assert [last][1..] == [];
    assert Flatten([last]) == last + Flatten<T>([]);
  }

  /** The first `bound` items; all of them when there is no bound. */
  function Upto<T>(bound: Option<nat>, items: seq<T>): (r: seq<T>)
    ensures r <= items
    ensures !Exceeds(bound, items) ==> r == items
    ensures bound.Some? && |items| >= bound.value ==> |r| == bound.value
    ensures bound.Some? ==> |r| <= bound.value
  {
    if Exceeds(bound, items) then items[..bound.value] else items
  }

  predicate Exceeds<T>(bound: Option<nat>, items: seq<T>) {
    bound.Some? && |items| > bound.value
  }

  /** The row cap `max_rows`, where 0 means unlimited. */
  function CapBound(cap: nat): Option<nat> {
    if cap == 0 then None else Some(cap)
  }

  /** Extending the input extends the bounded result, and does not change a full one. */
  lemma UptoExtend<T>(bound: Option<nat>, a: seq<T>, b: seq<T>)
    ensures Upto(bound, a) <= Upto(bound, a + b)
    ensures bound.Some? && |a| >= bound.value ==> Upto(bound, a + b) == Upto(bound, a)
  {
  }
}
