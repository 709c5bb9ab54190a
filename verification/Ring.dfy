/** Ring buffers indexed by a running counter modulo their size, as views of the sequence written so far. */
module Ring {
  /** The last n elements, or all of them if there are fewer. */
  function LastN<T>(s: seq<T>, n: nat): seq<T> {
    if |s| <= n then s else s[|s| - n..]
  }

  /** The first `n` elements, or all if there are fewer. */
  function FirstN<T>(s: seq<T>, n: nat): seq<T> {
    if |s| <= n then s else s[..n]
  }

  /** The remainder is the only one there is. */
  lemma ModUnique(x: int, q: int, r: int, m: int)
    requires 0 <= r < m && x == q * m + r
    ensures x % m == r
  {
    var e := q - x / m;
    assert x == (x / m) * m + x % m;
    assert e * m == x % m - r;
    assert e >= 1 ==> e * m >= m;
    assert e <= -1 ==> e * m <= -m;
  }

  /** The slot of a counter: its remainder, without division. */
  function Slot(k: nat, m: nat): (r: nat)
    requires m > 0
    ensures r < m
  {
    if k < m then k else Slot(k - m, m)
  }

  lemma {:induction false} SlotIsMod(k: nat, m: nat)
    requires m > 0
    ensures Slot(k, m) == k % m
  {
    if k < m {
      ModUnique(k, 0, k, m);
    } else {
      SlotIsMod(k - m, m);
      ModUnique(k, (k - m) / m + 1, (k - m) % m, m);
    }
  }

  /** Moving on by less than the size wraps around at most once. */
  lemma {:induction false} SlotStep(k: nat, j: nat, m: nat)
    requires j < m
    ensures Slot(k + j, m) == if Slot(k, m) + j < m then Slot(k, m) + j else Slot(k, m) + j - m
  {
    if k >= m {
      SlotStep(k - m, j, m);
    }
  }

  /** Fewer positions than slots never share one. */
  lemma SlotsDiffer(a: nat, b: nat, m: nat)
    requires a < b < a + m
    ensures Slot(a, m) != Slot(b, m)
  {
    SlotStep(a, b - a, m);
  }

  /** `ring` holds the most recent elements of `got`, element k in the slot of k + base. */
  ghost predicate Holds<T>(ring: seq<T>, got: seq<T>, base: nat)
    requires |ring| > 0
  {
    forall k {:trigger got[k]} | 0 <= k < |got| && |got| - |ring| <= k :: ring[Slot(k + base, |ring|)] == got[k]
  }

  lemma HoldsPush<T>(ring: seq<T>, got: seq<T>, base: nat, x: T)
    requires |ring| > 0 && Holds(ring, got, base)
    ensures Holds(ring[Slot(|got| + base, |ring|) := x], got + [x], base)
  {
    var m := |ring|;
    var ring' := ring[Slot(|got| + base, m) := x];
    var got' := got + [x];
    forall k | 0 <= k < |got'| && |got'| - m <= k ensures ring'[Slot(k + base, m)] == got'[k] {
      if k < |got| {
        SlotsDiffer(k + base, |got| + base, m);
        assert got'[k] == got[k];
      }
    }
  }

  /** Reading n elements from the slot of the oldest wanted one, around the end of the buffer. */
  lemma HoldsRead<T>(ring: seq<T>, got: seq<T>, n: nat)
    requires |ring| > 0 && Holds(ring, got, 0) && n <= |ring| && n <= |got|
    ensures var m := |ring|;
            var start := Slot(|got| - n + m, m);
            got[|got| - n..] == if start + n <= m then ring[start..start + n]
                                else ring[start..] + ring[..n - (m - start)]
  {
    var m := |ring|;
    var x := |got| - n;
    var start := Slot(x + m, m);
    var r := if start + n <= m then ring[start..start + n] else ring[start..] + ring[..n - (m - start)];
    forall j | 0 <= j < n ensures r[j] == got[x..][j] {
      SlotStep(x, j, m);
      assert got[x + j] == ring[Slot(x + j + 0, m)];
    }
    assert r == got[x..];
  }

  /** The elements still in the buffer after `cur` writes, oldest first. */
  method Read<T>(ring: array<T>, cur: nat, ghost got: seq<T>) returns (r: seq<T>)
    requires ring.Length > 0 && cur == |got| && Holds(ring[..], got, 0)
    ensures r == LastN(got, ring.Length)
  {
    var limit := ring.Length;
    var n := if cur < limit then cur else limit;
    var start := (cur - n + limit) % limit;
    assert start == Slot(|got| - n + limit, limit) by {
      SlotIsMod(cur - n + limit, limit);
    }
    HoldsRead(ring[..], got, n);
    assert got[|got| - n..] == LastN(got, limit);
    if start + n <= limit {
      r := ring[start..start + n];
    } else {
      r := ring[start..] + ring[..n - (limit - start)];
    }
  }
}
