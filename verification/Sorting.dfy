/** Go's sort.Sort and sort.Strings: any algorithm that puts things in order will do. */
module Sorting {
  /** Bytewise comparison of strings. */
  predicate NameLess(a: string, b: string) {
    if b == "" then false
    else if a == "" then true
    else if a[0] != b[0] then a[0] < b[0]
    else NameLess(a[1..], b[1..])
  }

  /** What a comparison has to satisfy: it is asymmetric, and not coming before is transitive. */
  ghost predicate WeakOrder<T(!new)>(less: (T, T) -> bool) {
    && (forall a, b :: less(a, b) ==> !less(b, a))
    && (forall a, b, c :: !less(b, a) && !less(c, b) ==> !less(c, a))
  }

  ghost predicate Sorted<T(!new)>(s: seq<T>, less: (T, T) -> bool) {
    forall i, j | 0 <= i < j < |s| :: !less(s[j], s[i])
  }

  lemma {:induction false} NameLessOrder(a: string, b: string, c: string)
    ensures NameLess(a, b) ==> !NameLess(b, a)
    ensures !NameLess(b, a) && !NameLess(c, b) ==> !NameLess(c, a)
  {
    if a != "" && b != "" && c != "" {
      NameLessOrder(a[1..], b[1..], c[1..]);
    } else if a != "" && b != "" {
      NameLessOrder(a[1..], b[1..], "");
    }
  }

  lemma NamesOrdered()
    ensures WeakOrder(NameLess)
  {
    forall a, b, c
      ensures NameLess(a, b) ==> !NameLess(b, a)
      ensures !NameLess(b, a) && !NameLess(c, b) ==> !NameLess(c, a)
    {
      NameLessOrder(a, b, c);
    }
  }

  method Sort<T(!new)>(s: seq<T>, less: (T, T) -> bool) returns (r: seq<T>)
    requires WeakOrder(less)
    ensures Sorted(r, less) && multiset(r) == multiset(s)
  {
    r := [];
    for i := 0 to |s|
      invariant Sorted(r, less) && multiset(r) == multiset(s[..i])
    {
      assert s[..i + 1] == s[..i] + [s[i]];
      r := Insert(r, s[i], less);
    }
    assert s[..|s|] == s;
  }

  method Insert<T(!new)>(s: seq<T>, e: T, less: (T, T) -> bool) returns (r: seq<T>)
    requires WeakOrder(less) && Sorted(s, less)
    ensures Sorted(r, less) && multiset(r) == multiset(s) + multiset{e}
  {
    var i := |s|;
    while i > 0 && less(e, s[i - 1])
      invariant 0 <= i <= |s|
      invariant forall j | i <= j < |s| :: less(e, s[j])
    {
      i := i - 1;
    }
    r := s[..i] + [e] + s[i..];
    assert s == s[..i] + s[i..];
    InsertSorted(s, e, i, less);
  }

  lemma InsertSorted<T(!new)>(s: seq<T>, e: T, i: nat, less: (T, T) -> bool)
    requires WeakOrder(less) && Sorted(s, less)
    requires i <= |s| && (i > 0 ==> !less(e, s[i - 1])) && forall j | i <= j < |s| :: less(e, s[j])
    ensures Sorted(s[..i] + [e] + s[i..], less)
  {
    assert forall j | 0 <= j < i :: !less(e, s[j]);
    assert forall j | i <= j < |s| :: !less(s[j], e);
  }
}
