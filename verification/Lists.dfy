/** Duplicate-free list append, as the configuration merge uses it, and its algebra. */
module Lists {
  import opened Text

  function AppendOne<T(==)>(values: seq<T>, value: T): seq<T> {
    if value in values then values else values + [value]
  }

  /** The additions appended one after the other, each unless it is already there. */
  function AppendUnique<T(==)>(values: seq<T>, additions: seq<T>): seq<T> {
    if additions == [] then values
    else AppendOne(AppendUnique(values, additions[..|additions| - 1]), additions[|additions| - 1])
  }

  predicate AreDistinct<T(==)>(values: seq<T>) {
    forall i, j :: 0 <= i < j < |values| ==> values[i] != values[j]
  }

  lemma {:induction false} AppendUniqueContents<T>(values: seq<T>, additions: seq<T>)
    ensures forall x :: x in AppendUnique(values, additions) <==> x in values || x in additions
    ensures values <= AppendUnique(values, additions)
    ensures AreDistinct(values) ==> AreDistinct(AppendUnique(values, additions))
  {
    if additions != [] {
      var init := additions[..|additions| - 1];
      AppendUniqueContents(values, init);
      assert additions == init + [additions[|additions| - 1]];
    }
  }

  lemma AppendUniqueStep<T>(values: seq<T>, additions: seq<T>, value: T)
    ensures AppendUnique(values, additions + [value]) == AppendOne(AppendUnique(values, additions), value)
  {
    assert (additions + [value])[..|additions|] == additions;
  }

  /** Appending is associative, for all lists. */
  lemma {:induction false} AppendUniqueAssociative<T>(a: seq<T>, b: seq<T>, c: seq<T>)
    ensures AppendUnique(AppendUnique(a, b), c) == AppendUnique(a, AppendUnique(b, c))
  {
    if c != [] {
      var init, last := c[..|c| - 1], c[|c| - 1];
      AppendUniqueAssociative(a, b, init);
      var bc := AppendUnique(b, init);
      AppendUniqueContents(b, init);
      AppendUniqueContents(a, bc);
      if last !in bc {
        AppendUniqueStep(a, bc, last);
      }
    }
  }

  lemma {:induction false} AppendUniqueAbsorbs<T>(values: seq<T>, additions: seq<T>)
    requires forall x :: x in additions ==> x in values
    ensures AppendUnique(values, additions) == values
  {
    if additions != [] {
      AppendUniqueAbsorbs(values, additions[..|additions| - 1]);
    }
  }

  /** Appending the same list again changes nothing, and a list appended to itself is itself. */
  lemma AppendUniqueIdempotent<T>(values: seq<T>, additions: seq<T>)
    ensures AppendUnique(AppendUnique(values, additions), additions) == AppendUnique(values, additions)
    ensures AppendUnique(values, values) == values
  {
    AppendUniqueContents(values, additions);
    AppendUniqueAbsorbs(AppendUnique(values, additions), additions);
    AppendUniqueAbsorbs(values, values);
  }

  method AppendUniqueInPlace<T(==)>(base: seq<T>, additions: seq<T>) returns (values: seq<T>)
    ensures values == AppendUnique(base, additions)
  {
    values := base;
    assert additions[..0] == [];
    for n := 0 to |additions|
      invariant values == AppendUnique(base, additions[..n])
    {
      assert additions[..n + 1] == additions[..n] + [additions[n]];
      AppendUniqueStep(base, additions[..n], additions[n]);
      if additions[n] !in values {
        values := values + [additions[n]];
      }
    }
    assert additions[..|additions|] == additions;
  }
}
