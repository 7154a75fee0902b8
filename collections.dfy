/** Facts about sequences, sets and maps shared by the object list of `Simulator`
    and the object store. */
module Collections {

  /** No element occurs twice (equality of references, for objects). */
  predicate NoDuplicates<T(==)>(s: seq<T>)
  {
    forall i, j :: 0 <= i < j < |s| ==> s[i] != s[j]
  }

  /** `s` with `x` appended unless `x` already occurs in it (`if (!contains) add`). */
  function AppendNew<T(==)>(s: seq<T>, x: T): (r: seq<T>)
    ensures x in r && (forall y :: y in s ==> y in r)
    ensures forall y :: y in r ==> y in s || y == x
    ensures x in s ==> r == s
    ensures x !in s ==> |r| == |s| + 1 && r[..|s|] == s
    ensures NoDuplicates(s) ==> NoDuplicates(r)
  {
    if x in s then s else s + [x]
  }

  /** Adding the same element twice is the same as adding it once. */
  lemma AppendNewIdempotent<T>(s: seq<T>, x: T)
    ensures AppendNew(AppendNew(s, x), x) == AppendNew(s, x)
  {
  }

  /** `AppendNew` of every element of `xs`, front to back. */
  function AppendAll<T(==)>(s: seq<T>, xs: seq<T>): (r: seq<T>)
    ensures forall y :: y in s ==> y in r
    ensures forall y :: y in xs ==> y in r
    ensures forall y :: y in r ==> y in s || y in xs
    ensures |s| <= |r| && r[..|s|] == s
    ensures NoDuplicates(s) ==> NoDuplicates(r)
  {
    if xs == [] then s
    else
      var prefix := AppendAll(s, xs[..|xs| - 1]);
      assert forall y :: y in xs ==> y in xs[..|xs| - 1] || y == xs[|xs| - 1];
      AppendNew(prefix, xs[|xs| - 1])
  }
}
