/**
 * Records addressed by id. Tasks, alarms and habits are each looked up with
 * `find(x => x.id === id)`; alarms and habits are deleted with
 * `filter(x => x.id !== id)`. Both are written once here, over any record
 * type and the function that reads its id.
 */
module Lists {
  import opened Text

  /** `find(x => key(x) === id)`, as an index: the first record with that id. */
  function FindBy<T>(xs: seq<T>, key: T -> int, id: int): (r: Option<nat>)
    ensures r.Some? ==> r.value < |xs| && key(xs[r.value]) == id
    ensures r.Some? ==> forall k :: 0 <= k < r.value ==> key(xs[k]) != id
    ensures r.None? ==> forall k :: 0 <= k < |xs| ==> key(xs[k]) != id
    decreases |xs|
  {
    if xs == [] then None
    else if key(xs[0]) == id then Some(0)
    else
      match FindBy(xs[1..], key, id)
      case None => None
      case Some(k) => Some(k + 1)
  }

  /** The first record with an id is found at its index. */
  lemma {:induction false} FindByAt<T>(xs: seq<T>, key: T -> int, id: int, i: nat)
    requires i < |xs| && key(xs[i]) == id && forall k :: 0 <= k < i ==> key(xs[k]) != id
    ensures FindBy(xs, key, id) == Some(i)
    decreases i
  {
    if i > 0 {
      FindByAt(xs[1..], key, id, i - 1);
    }
  }

  /** Lists with the same ids at the same places find the same record. */
  lemma {:induction false} SameKeysSameFind<T>(a: seq<T>, b: seq<T>, key: T -> int, id: int)
    requires |a| == |b| && forall k :: 0 <= k < |a| ==> key(a[k]) == key(b[k])
    ensures FindBy(a, key, id) == FindBy(b, key, id)
    decreases |a|
  {
    if a != [] && key(a[0]) != id {
      SameKeysSameFind(a[1..], b[1..], key, id);
    }
  }

  /** `filter(x => key(x) !== id)`: every record with the id goes, the rest keep their order. */
  function DropBy<T(==,!new)>(xs: seq<T>, key: T -> int, id: int): (r: seq<T>)
    ensures forall x :: x in r <==> x in xs && key(x) != id
    ensures |r| <= |xs|
    ensures (forall x :: x in xs ==> key(x) != id) ==> r == xs
    decreases |xs|
  {
    if xs == [] then []
    else
      assert forall x :: x in xs[1..] ==> x in xs;
      (if key(xs[0]) != id then [xs[0]] else []) + DropBy(xs[1..], key, id)
  }

  /** Dropping works piece by piece, so the survivors keep their order. */
  lemma {:induction false} DropByAppend<T(!new)>(xs: seq<T>, ys: seq<T>, key: T -> int, id: int)
    ensures DropBy(xs + ys, key, id) == DropBy(xs, key, id) + DropBy(ys, key, id)
    decreases |xs|
  {
    if xs == [] {
      assert xs + ys == ys;
    } else {
      var head := if key(xs[0]) != id then [xs[0]] else [];
      assert (xs + ys)[0] == xs[0] && (xs + ys)[1..] == xs[1..] + ys;
      calc {
        DropBy(xs + ys, key, id);
        head + DropBy(xs[1..] + ys, key, id);
        { DropByAppend(xs[1..], ys, key, id); }
        head + (DropBy(xs[1..], key, id) + DropBy(ys, key, id));
        (head + DropBy(xs[1..], key, id)) + DropBy(ys, key, id);
        DropBy(xs, key, id) + DropBy(ys, key, id);
      }
    }
  }
}
