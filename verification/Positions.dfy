/** Positions in a log: those with a property, in order, and the last so many of them. */
module Positions {
  import opened Text
  import opened Ring

  /** The positions from `from` up to `to` with a property, in order. */
  function Where(p: nat -> bool, from: nat, to: nat): seq<nat>
    decreases if from < to then to - from else 0
  {
    if from >= to then [] else (if p(from) then [from] else []) + Where(p, from + 1, to)
  }

  /** What is at each of these positions. */
  function Map<T>(at: nat -> T, ps: seq<nat>): seq<T> {
    seq(|ps|, k requires 0 <= k < |ps| => at(ps[k]))
  }

  ghost predicate Ascending(ps: seq<nat>) {
    forall i, j | 0 <= i < j < |ps| :: ps[i] < ps[j]
  }

  lemma {:induction false} WhereIff(p: nat -> bool, from: nat, to: nat, i: nat)
    ensures i in Where(p, from, to) <==> from <= i < to && p(i)
    ensures i in Where(p, from, to) ==> |Where(p, i + 1, to)| < |Where(p, from, to)|
    decreases if from < to then to - from else 0
  {
    if from < to {
      WhereIff(p, from + 1, to, i);
    }
  }

  lemma {:induction false} WhereRange(p: nat -> bool, from: nat, to: nat)
    ensures forall i | i in Where(p, from, to) :: from <= i < to && p(i)
    decreases if from < to then to - from else 0
  {
    if from < to {
      WhereRange(p, from + 1, to);
    }
  }

  lemma {:induction false} WhereAscends(p: nat -> bool, from: nat, to: nat)
    ensures Ascending(Where(p, from, to))
    decreases if from < to then to - from else 0
  {
    if from < to {
      var rest := Where(p, from + 1, to);
      WhereAscends(p, from + 1, to);
      WhereRange(p, from + 1, to);
      assert forall i | 0 <= i < |rest| :: rest[i] in rest;
    }
  }

  lemma {:induction false} WhereSplit(p: nat -> bool, from: nat, i: nat, to: nat)
    requires from <= i < to && p(i)
    ensures Where(p, from, to) == Where(p, from, i) + ([i] + Where(p, i + 1, to))
    decreases i - from
  {
    if from == i {
      assert [] + ([i] + Where(p, i + 1, to)) == [i] + Where(p, i + 1, to);
    } else {
      WhereSplit(p, from + 1, i, to);
      var h := if p(from) then [from] else [];
      Assoc(h, Where(p, from + 1, i), [i] + Where(p, i + 1, to));
    }
  }

  lemma {:induction false} WhereNone(p: nat -> bool, from: nat, to: nat)
    requires forall i: nat | from <= i < to :: !p(i)
    ensures Where(p, from, to) == []
    decreases if from < to then to - from else 0
  {
    if from < to {
      WhereNone(p, from + 1, to);
    }
  }

  lemma {:induction false} WhereSame(p: nat -> bool, q: nat -> bool, from: nat, to: nat)
    requires forall i: nat | from <= i < to :: p(i) == q(i)
    ensures Where(p, from, to) == Where(q, from, to)
    decreases if from < to then to - from else 0
  {
    if from < to {
      WhereSame(p, q, from + 1, to);
    }
  }

  lemma {:induction false} WhereMore(p: nat -> bool, q: nat -> bool, from: nat, to: nat)
    requires forall i: nat | from <= i < to :: p(i) ==> q(i)
    ensures |Where(p, from, to)| <= |Where(q, from, to)|
    decreases if from < to then to - from else 0
  {
    if from < to {
      WhereMore(p, q, from + 1, to);
    }
  }

  lemma {:induction false} WhereLater(p: nat -> bool, from: nat, later: nat, to: nat)
    requires from <= later
    ensures |Where(p, later, to)| <= |Where(p, from, to)|
    decreases later - from
  {
    if from < later && from < to {
      WhereLater(p, from + 1, later, to);
    }
  }

  lemma LastNMiddle(a: seq<nat>, i: nat, b: seq<nat>, n: nat)
    requires i !in a && i !in b
    ensures i in LastN(a + ([i] + b), n) <==> |b| < n
  {
    var s := a + ([i] + b);
    assert s[|a|] == i;
    if |b| < n {
      assert |s| > n ==> LastN(s, n)[|a| - (|s| - n)] == i;
    } else {
      assert LastN(s, n) == b[|b| - n..];
    }
  }

  /** The last `n` positions are those with fewer than `n` after them. */
  lemma LastWhereIff(p: nat -> bool, from: nat, to: nat, n: nat, i: nat)
    ensures i in LastN(Where(p, from, to), n) <==> from <= i < to && p(i) && |Where(p, i + 1, to)| < n
  {
    WhereIff(p, from, to, i);
    if i in Where(p, from, to) {
      WhereSplit(p, from, i, to);
      WhereIff(p, from, i, i);
      WhereIff(p, i + 1, to, i);
      LastNMiddle(Where(p, from, i), i, Where(p, i + 1, to), n);
    }
  }

  lemma MapConcat<T>(at: nat -> T, a: seq<nat>, b: seq<nat>)
    ensures Map(at, a + b) == Map(at, a) + Map(at, b)
  {
  }

  lemma LastNMap<T>(at: nat -> T, ps: seq<nat>, n: nat)
    ensures LastN(Map(at, ps), n) == Map(at, LastN(ps, n))
  {
  }

  /** Different positions that are all among some others are no more than those. */
  lemma {:induction false} NoMore(a: seq<nat>, b: seq<nat>)
    requires Ascending(a) && forall x <- a :: x in b
    ensures |a| <= |b|
    decreases |a|
  {
    if a != [] {
      var n := |a| - 1;
      assert a[n] in b;
      var k :| 0 <= k < |b| && b[k] == a[n];
      var rest := b[..k] + b[k + 1..];
      forall x | x in a[..n] ensures x in rest {
        var i :| 0 <= i < n && a[i] == x;
        assert a[i] in a && a[i] < a[n];
        var j :| 0 <= j < |b| && b[j] == x;
        assert rest[if j < k then j else j - 1] == x;
      }
      NoMore(a[..n], rest);
    }
  }

  lemma InitIff(a: seq<nat>, x: nat)
    requires Ascending(a) && a != []
    ensures x in a[..|a| - 1] <==> x in a && x != a[|a| - 1]
  {
    assert a == a[..|a| - 1] + [a[|a| - 1]];
  }

  lemma LastSame(a: seq<nat>, b: seq<nat>)
    requires Ascending(a) && Ascending(b) && a != [] && b != []
    requires a[|a| - 1] in b && b[|b| - 1] in a
    ensures a[|a| - 1] == b[|b| - 1]
  {
    var i :| 0 <= i < |b| && b[i] == a[|a| - 1];
    var j :| 0 <= j < |a| && a[j] == b[|b| - 1];
  }

  ghost predicate SameMembers(a: seq<nat>, b: seq<nat>) {
    (forall x <- a :: x in b) && (forall x <- b :: x in a)
  }

  lemma SameInits(a: seq<nat>, b: seq<nat>)
    requires Ascending(a) && Ascending(b) && a != [] && b != [] && SameMembers(a, b)
    ensures a[|a| - 1] == b[|b| - 1] && SameMembers(a[..|a| - 1], b[..|b| - 1])
  {
    assert a[|a| - 1] in a && b[|b| - 1] in b;
    LastSame(a, b);
    var c, d := a[..|a| - 1], b[..|b| - 1];
    forall x: nat ensures x in c <==> x in d {
      InitIff(a, x);
      InitIff(b, x);
    }
  }

  lemma SameLast(a: seq<nat>, b: seq<nat>)
    requires a != [] && b != [] && a[|a| - 1] == b[|b| - 1] && a[..|a| - 1] == b[..|b| - 1]
    ensures a == b
  {
    assert a == a[..|a| - 1] + [a[|a| - 1]] && b == b[..|b| - 1] + [b[|b| - 1]];
  }

  /** Two lists in order with the same positions are the same. */
  lemma {:induction false} SameAscending(a: seq<nat>, b: seq<nat>)
    requires Ascending(a) && Ascending(b) && SameMembers(a, b)
    ensures a == b
    decreases |a|
  {
    assert a != [] ==> a[0] in a && a[0] in b;
    assert b != [] ==> b[0] in b && b[0] in a;
    if a != [] && b != [] {
      SameInits(a, b);
      SameAscending(a[..|a| - 1], b[..|b| - 1]);
      SameLast(a, b);
    }
  }
}
