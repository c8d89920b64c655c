/**
 * The two list operations every page uses on its records: `filter(x => x.id !== id)` and a
 * `filter(keep)` by an arbitrary predicate. Both keep the order of what they keep.
 */
module Collections {

  /** `xs.filter(keep)`. */
  function Filter<T>(xs: seq<T>, keep: T -> bool): (r: seq<T>)
    ensures |r| <= |xs|
    decreases |xs|
  {
    if |xs| == 0 then []
    else if keep(xs[0]) then [xs[0]] + Filter(xs[1..], keep)
    else Filter(xs[1..], keep)
  }

  /** What is kept is exactly what is in the list and satisfies the predicate. */
  lemma {:induction false} FilterMembers<T(!new)>(xs: seq<T>, keep: T -> bool)
    ensures forall x :: x in Filter(xs, keep) <==> x in xs && keep(x)
    decreases |xs|
  {
    if |xs| > 0 {
      FilterMembers(xs[1..], keep);
      assert xs == [xs[0]] + xs[1..];
    }
  }

  /** Filtering distributes over concatenation: the kept elements stay in their order. */
  lemma {:induction false} FilterAppend<T>(a: seq<T>, b: seq<T>, keep: T -> bool)
    ensures Filter(a + b, keep) == Filter(a, keep) + Filter(b, keep)
    decreases |a|
  {
    if |a| == 0 {
      assert a + b == b;
    } else {
      var rest := a[1..];
      assert (a + b)[0] == a[0];
      assert (a + b)[1..] == rest + b;
      FilterAppend(rest, b, keep);
      if keep(a[0]) {
        calc {
          Filter(a + b, keep);
          [a[0]] + Filter(rest + b, keep);
          [a[0]] + (Filter(rest, keep) + Filter(b, keep));
          ([a[0]] + Filter(rest, keep)) + Filter(b, keep);
        }
      }
    }
  }

  /** Nothing is dropped when every element is kept. */
  lemma {:induction false} FilterKeepsAll<T>(xs: seq<T>, keep: T -> bool)
    requires forall i :: 0 <= i < |xs| ==> keep(xs[i])
    ensures Filter(xs, keep) == xs
    decreases |xs|
  {
    if |xs| > 0 {
      FilterKeepsAll(xs[1..], keep);
    }
  }

  /** Every kept element satisfies the predicate. */
  lemma FilterAllKept<T(!new)>(xs: seq<T>, keep: T -> bool)
    ensures forall i :: 0 <= i < |Filter(xs, keep)| ==> keep(Filter(xs, keep)[i])
  {
    var r := Filter(xs, keep);
    FilterMembers(xs, keep);
    forall i | 0 <= i < |r| ensures keep(r[i]) {
      assert r[i] in r;
    }
  }

  /** Dropping an element the predicate rejects shortens the list. */
  lemma {:induction false} FilterRejectShortens<T>(xs: seq<T>, keep: T -> bool, k: nat)
    requires k < |xs| && !keep(xs[k])
    ensures |Filter(xs, keep)| < |xs|
    decreases |xs|
  {
    if k > 0 {
      FilterRejectShortens(xs[1..], keep, k - 1);
    }
  }

  /** The predicate "the key is not `id`". */
  function KeyIsNot<T>(key: T -> string, id: string): T -> bool {
    x => key(x) != id
  }

  /** `xs.filter(x => key(x) !== id)`. */
  function RemoveKey<T(!new)>(xs: seq<T>, key: T -> string, id: string): (r: seq<T>)
    ensures |r| <= |xs|
    ensures forall x :: x in r <==> x in xs && key(x) != id
  {
    FilterMembers(xs, KeyIsNot(key, id));
    Filter(xs, KeyIsNot(key, id))
  }

  /** Removal distributes over concatenation, so the remaining elements keep their order. */
  lemma RemoveKeyAppend<T(!new)>(a: seq<T>, b: seq<T>, key: T -> string, id: string)
    ensures RemoveKey(a + b, key, id) == RemoveKey(a, key, id) + RemoveKey(b, key, id)
  {
    FilterAppend(a, b, KeyIsNot(key, id));
  }

  /** Removing a key no element has changes nothing. */
  lemma RemoveAbsentKey<T(!new)>(xs: seq<T>, key: T -> string, id: string)
    requires forall i :: 0 <= i < |xs| ==> key(xs[i]) != id
    ensures RemoveKey(xs, key, id) == xs
  {
    FilterKeepsAll(xs, KeyIsNot(key, id));
  }

  /** Removing a key that is present shortens the list. */
  lemma RemovePresentKeyShortens<T(!new)>(xs: seq<T>, key: T -> string, id: string, k: nat)
    requires k < |xs| && key(xs[k]) == id
    ensures |RemoveKey(xs, key, id)| < |xs|
  {
    FilterRejectShortens(xs, KeyIsNot(key, id), k);
  }
}
