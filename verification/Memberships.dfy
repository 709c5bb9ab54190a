/** Channel membership ranks: ordered sets of ranks, and their prefixes in front of a nickname. */
module Memberships {
  import opened Text

  datatype Membership = Membership(mode: char, prefix: char)

  type Ranks = seq<Membership>

  /** A rank list from the server's PREFIX token: no rank and no prefix twice. */
  ghost predicate Distinct(ranks: Ranks) {
    forall i, j | 0 <= i < j < |ranks| :: ranks[i] != ranks[j] && ranks[i].prefix != ranks[j].prefix
  }

  ghost predicate NoDuplicates(ranks: Ranks) {
    forall i, j | 0 <= i < j < |ranks| :: ranks[i] != ranks[j]
  }

  /** The members of `s` by descending rank: the reference for what a membership set holds. */
  function Ranked(ranks: Ranks, s: set<Membership>): Ranks {
    if ranks == [] then []
    else Head(ranks[0], s) + Ranked(ranks[1..], s)
  }

  function Head(m: Membership, s: set<Membership>): Ranks {
    if m in s then [m] else []
  }

  lemma {:induction false} RankedMembers(ranks: Ranks, s: set<Membership>)
    ensures forall m :: m in Ranked(ranks, s) <==> m in s && m in ranks
  {
    if ranks != [] {
      RankedMembers(ranks[1..], s);
    }
  }

  lemma {:induction false} RankedNoDuplicates(ranks: Ranks, s: set<Membership>)
    requires NoDuplicates(ranks)
    ensures NoDuplicates(Ranked(ranks, s))
  {
    if ranks != [] {
      RankedNoDuplicates(ranks[1..], s);
      RankedMembers(ranks[1..], s);
      assert ranks[0] !in ranks[1..];
    }
  }

  lemma {:induction false} RankedSame(ranks: Ranks, s: set<Membership>, t: set<Membership>)
    requires forall m | m in ranks :: m in s <==> m in t
    ensures Ranked(ranks, s) == Ranked(ranks, t)
  {
    if ranks != [] {
      RankedSame(ranks[1..], s, t);
    }
  }

  lemma {:induction false} RankedConcat(a: Ranks, b: Ranks, s: set<Membership>)
    ensures Ranked(a + b, s) == Ranked(a, s) + Ranked(b, s)
  {
    if a == [] {
      assert a + b == b;
    } else {
      assert (a + b)[1..] == a[1..] + b && (a + b)[0] == a[0];
      RankedConcat(a[1..], b, s);
      Assoc(Head(a[0], s), Ranked(a[1..], s), Ranked(b, s));
    }
  }

  /** Sets that agree except on the rank at `k` are ranked alike around it. */
  lemma RankedSplit(ranks: Ranks, k: nat, s: set<Membership>, t: set<Membership>)
    requires k < |ranks| && NoDuplicates(ranks)
    requires forall m | m != ranks[k] :: m in s <==> m in t
    ensures Ranked(ranks, t) ==
            Ranked(ranks[..k], s) + (if ranks[k] in t then [ranks[k]] else []) + Ranked(ranks[k + 1..], s)
  {
    var m := ranks[k];
    var tail := [m] + ranks[k + 1..];
    assert ranks == ranks[..k] + tail && tail[1..] == ranks[k + 1..];
    RankedConcat(ranks[..k], tail, t);
    assert m !in ranks[..k] && m !in ranks[k + 1..];
    RankedSame(ranks[..k], s, t);
    RankedSame(ranks[k + 1..], s, t);
    Assoc(Ranked(ranks[..k], t), Head(m, t), Ranked(ranks[k + 1..], t));
  }

  /** A duplicate-free rank list around one of its ranks. */
  lemma RankedAround(ranks: Ranks, k: nat, s: set<Membership>)
    requires k < |ranks| && NoDuplicates(ranks)
    ensures var before, after := Ranked(ranks[..k], s), Ranked(ranks[k + 1..], s);
            && Ranked(ranks, s + {ranks[k]}) == before + [ranks[k]] + after
            && Ranked(ranks, s - {ranks[k]}) == before + after
  {
    RankedSplit(ranks, k, s, s + {ranks[k]});
    RankedSplit(ranks, k, s, s - {ranks[k]});
  }

  /** The loop of Add: whether the rank is there already, or else where it belongs. */
  method Position(ranks: Ranks, m: Membership, l: Ranks, ghost s: set<Membership>)
    returns (present: bool, i: nat, ghost k: nat)
    requires l == Ranked(ranks, s) && NoDuplicates(ranks) && m in ranks
    ensures present <==> m in s
    ensures !present ==> i <= |l| && k < |ranks| && l[i..] == Ranked(ranks[k..], s)
    ensures !present ==> i == |l| || ranks[k] == m
    ensures !present ==> forall x | 0 <= x < k :: ranks[x] != m
  {
    i, k := 0, 0;
    assert ranks[0..] == ranks && l[0..] == l;
    var j := 0;
    while j < |ranks| && i < |l|
      invariant 0 <= j == k <= |ranks| && 0 <= i <= |l|
      invariant l[i..] == Ranked(ranks[j..], s)
      invariant forall x | 0 <= x < j :: ranks[x] != m
    {
      RankedAt(ranks, j, s, l, i);
      if l[i] == ranks[j] {
        if ranks[j] == m {
          return true, i, k;
        }
        i := i + 1;
      } else if ranks[j] == m {
        return false, i, k;
      }
      j, k := j + 1, k + 1;
    }
    NotYet(ranks, j, s, m);
    present := false;
  }

  /** The rank is further on, and nothing further on is in the set. */
  lemma NotYet(ranks: Ranks, j: nat, s: set<Membership>, m: Membership)
    requires m in ranks && j <= |ranks| && (forall x | 0 <= x < j :: ranks[x] != m)
    requires j == |ranks| || Ranked(ranks[j..], s) == []
    ensures j < |ranks| && m !in s
  {
    RankedMembers(ranks[j..], s);
    var p :| 0 <= p < |ranks| && ranks[p] == m;
    assert ranks[j..][p - j] == m;
  }

  lemma RankedAt(ranks: Ranks, j: nat, s: set<Membership>, l: Ranks, i: nat)
    requires j < |ranks| && NoDuplicates(ranks) && i < |l| && l[i..] == Ranked(ranks[j..], s)
    ensures l[i] == ranks[j] <==> ranks[j] in s
    ensures (if ranks[j] in s then l[i + 1..] else l[i..]) == Ranked(ranks[j + 1..], s)
  {
    RankedNext(ranks, j, s);
    assert l[i..][0] == l[i] && l[i..][1..] == l[i + 1..];
  }

  /** The next rank of the list is a member exactly if it is the next one in the set. */
  lemma RankedNext(ranks: Ranks, j: nat, s: set<Membership>)
    requires j < |ranks| && NoDuplicates(ranks)
    ensures var now, rest := Ranked(ranks[j..], s), Ranked(ranks[j + 1..], s);
            if ranks[j] in s then now != [] && now[0] == ranks[j] && now[1..] == rest
            else now == rest && (now != [] ==> now[0] != ranks[j])
  {
    assert ranks[j..][1..] == ranks[j + 1..];
    var rest := Ranked(ranks[j + 1..], s);
    assert Ranked(ranks[j..], s) == Head(ranks[j], s) + rest;
    RankedMembers(ranks[j + 1..], s);
    assert rest != [] ==> rest[0] in rest;
    assert ranks[j] !in ranks[j + 1..];
  }

  class MembershipSet {
    var l: Ranks

    constructor ()
      ensures l == []
    {
      l := [];
    }

    /** A set of ranks kept by descending rank. */
    ghost predicate Holds(ranks: Ranks, s: set<Membership>)
      reads this
    {
      l == Ranked(ranks, s)
    }

    method Add(ranks: Ranks, m: Membership, ghost s: set<Membership>)
      requires Holds(ranks, s) && NoDuplicates(ranks) && m in ranks
      modifies this
      ensures Holds(ranks, s + {m})
    {
      var present, i, k := Position(ranks, m, l, s);
      if present {
        assert s + {m} == s;
        return;
      }
      InsertHere(ranks, s, m, l, i, k);
      l := l[..i] + [m] + l[i..];
    }

    method Remove(m: Membership, ghost ranks: Ranks, ghost s: set<Membership>)
      requires Holds(ranks, s) && NoDuplicates(ranks)
      modifies this
      ensures Holds(ranks, s - {m})
    {
      for i := 0 to |l|
        invariant l == old(l) && m !in l[..i]
      {
        if l[i] == m {
          RemoveHere(ranks, s, m, l, i);
          l := l[..i] + l[i + 1..];
          return;
        }
      }
      RankedMembers(ranks, s);
      assert l[..|l|] == l;
      RankedSame(ranks, s, s - {m});
    }
  }

  lemma InsertHere(ranks: Ranks, s: set<Membership>, m: Membership, l: Ranks, i: nat, k: nat)
    requires NoDuplicates(ranks) && m in ranks && m !in s && k < |ranks| && i <= |l|
    requires l == Ranked(ranks, s) && l[i..] == Ranked(ranks[k..], s)
    requires (i == |l| || ranks[k] == m) && forall x | 0 <= x < k :: ranks[x] != m
    ensures l[..i] + [m] + l[i..] == Ranked(ranks, s + {m})
  {
    var p :| 0 <= p < |ranks| && ranks[p] == m;
    assert p >= k;
    var before, after := Ranked(ranks[..p], s), Ranked(ranks[p + 1..], s);
    RankedAround(ranks, p, s);
    assert s - {m} == s;
    assert l == before + after;
    assert |after| == |l| - i by {
      RankedFrom(ranks, k, p, s);
    }
    CutAt(l, before, after, i);
  }

  lemma CutAt<T>(l: seq<T>, before: seq<T>, after: seq<T>, i: nat)
    requires l == before + after && |l| == i + |after|
    ensures before == l[..i] && after == l[i..]
  {
  }

  /** From a rank on that is not a member, the members are those between and those after it. */
  lemma RankedFrom(ranks: Ranks, k: nat, p: nat, s: set<Membership>)
    requires k <= p < |ranks| && ranks[p] !in s
    ensures Ranked(ranks[k..], s) == Ranked(ranks[k..p], s) + Ranked(ranks[p + 1..], s)
    ensures k == p ==> Ranked(ranks[k..p], s) == []
  {
    assert ranks[k..] == ranks[k..p] + ranks[p..] && ranks[p..][1..] == ranks[p + 1..];
    RankedConcat(ranks[k..p], ranks[p..], s);
  }

  lemma RemoveHere(ranks: Ranks, s: set<Membership>, m: Membership, l: Ranks, i: nat)
    requires NoDuplicates(ranks) && l == Ranked(ranks, s) && i < |l| && l[i] == m
    ensures l[..i] + l[i + 1..] == Ranked(ranks, s - {m})
  {
    RankedMembers(ranks, s);
    assert m in l && s + {m} == s;
    var p :| 0 <= p < |ranks| && ranks[p] == m;
    var before, after := Ranked(ranks[..p], s), Ranked(ranks[p + 1..], s);
    RankedAround(ranks, p, s);
    RankedNoDuplicates(ranks, s);
    assert l[|before|] == m;
    assert i == |before|;
    assert l[..i] == before && l[i + 1..] == after;
  }

  // ----- Prefixes in front of a nickname -----

  /** formatMemberPrefix with multi-prefix. */
  function Prefixes(l: Ranks): string {
    seq(|l|, i requires 0 <= i < |l| => l[i].prefix)
  }

  /**
   formatMemberPrefix: only the highest rank is shown without multi-prefix. That one is printed as a rune, which is the
   same for a prefix in ASCII and two bytes for any other.
   */
  method FormatMemberPrefix(l: Ranks, multiPrefix: bool) returns (prefixes: string)
    ensures multiPrefix ==> prefixes == Prefixes(l)
    ensures !multiPrefix ==> prefixes == if l == [] then "" else AsRune(l[0].prefix)
    ensures !multiPrefix && l != [] ==> (prefixes == Prefixes(l[..1]) <==> (l[0].prefix as int) < 0x80)
  {
    if !multiPrefix {
      if |l| == 0 {
        return "";
      }
      return AsRune(l[0].prefix);
    }
    prefixes := "";
    for i := 0 to |l|
      invariant prefixes == Prefixes(l[..i])
    {
      prefixes := prefixes + [l[i].prefix];
    }
    assert l[..|l|] == l;
  }

  function Parse(ranks: Ranks, s: string): (Ranks, string) {
    if ranks == [] || s == "" then ([], s)
    else if s[0] == ranks[0].prefix then
      var (ms, nick) := Parse(ranks[1..], s[1..]);
      ([ranks[0]] + ms, nick)
    else Parse(ranks[1..], s)
  }

  method ParseMembershipPrefix(ranks: Ranks, s: string) returns (ms: Ranks, nick: string)
    ensures (ms, nick) == Parse(ranks, s)
  {
    ms := [];
    var i := 0;
    ghost var all := Parse(ranks, s);
    assert ranks[0..] == ranks && s[0..] == s;
    assert [] + all.0 == all.0;
    var k := 0;
    while k < |ranks| && i < |s|
      invariant 0 <= k <= |ranks| && 0 <= i <= |s|
      invariant var rest := Parse(ranks[k..], s[i..]); all == (ms + rest.0, rest.1)
    {
      ghost var rest := Parse(ranks[k + 1..], s[i + 1..]);
      assert ranks[k..][1..] == ranks[k + 1..] && s[i..][1..] == s[i + 1..];
      if s[i] == ranks[k].prefix {
        assert ms + ([ranks[k]] + rest.0) == ms + [ranks[k]] + rest.0;
        ms := ms + [ranks[k]];
        i := i + 1;
      }
      k := k + 1;
    }
    assert Parse(ranks[k..], s[i..]) == ([], s[i..]);
    assert ms + [] == ms;
    nick := s[i..];
  }

  /** The ranks below the lowest one in `s`. */
  function Below(ranks: Ranks, s: set<Membership>): Ranks {
    if ranks == [] || Ranked(ranks, s) == [] then ranks else Below(ranks[1..], s)
  }

  /** The nickname does not start with the prefix of one of these ranks. */
  ghost predicate Unranked(ranks: Ranks, nick: string) {
    nick == "" || forall i | 0 <= i < |ranks| :: ranks[i].prefix != nick[0]
  }

  lemma {:induction false} ParseUnranked(ranks: Ranks, nick: string)
    ensures Parse(ranks, nick) == ([], nick) <==>
            Unranked(ranks, nick)
  {
    if ranks != [] && nick != "" && nick[0] != ranks[0].prefix {
      ParseUnranked(ranks[1..], nick);
      assert forall i | 1 <= i < |ranks| :: ranks[i] == ranks[1..][i - 1];
    }
  }

  lemma DistinctRest(ranks: Ranks, s: set<Membership>)
    requires ranks != [] && Distinct(ranks)
    ensures Distinct(ranks[1..])
    ensures forall m | m in Ranked(ranks[1..], s) :: m.prefix != ranks[0].prefix
  {
    RankedMembers(ranks[1..], s);
  }

  /**
   Parsing what multi-prefix prints in front of a nickname gives back the ranks and the nickname, exactly
   if the nickname does not start with the prefix of a rank below all of them.
   */
  lemma {:induction false} ParseFormatIff(ranks: Ranks, s: set<Membership>, nick: string)
    requires Distinct(ranks)
    ensures Parse(ranks, Prefixes(Ranked(ranks, s)) + nick) == (Ranked(ranks, s), nick) <==>
            Unranked(Below(ranks, s), nick)
    decreases ranks
  {
    var l := Ranked(ranks, s);
    if l == [] {
      assert Prefixes(l) + nick == nick;
      ParseUnranked(ranks, nick);
    } else {
      DistinctRest(ranks, s);
      ParseFormatIff(ranks[1..], s, nick);
      if ranks[0] in s {
        ParseHead(ranks, Ranked(ranks[1..], s), nick);
      } else {
        assert l == [] + Ranked(ranks[1..], s) == Ranked(ranks[1..], s);
        ParseOther(ranks, l, nick);
      }
    }
  }

  /** The highest rank is shown first and taken off first. */
  lemma ParseHead(ranks: Ranks, rest: Ranks, nick: string)
    requires ranks != []
    ensures Parse(ranks, Prefixes([ranks[0]] + rest) + nick) == ([ranks[0]] + rest, nick) <==>
            Parse(ranks[1..], Prefixes(rest) + nick) == (rest, nick)
  {
    var text := Prefixes([ranks[0]] + rest) + nick;
    assert text[0] == ranks[0].prefix && text[1..] == Prefixes(rest) + nick;
    var (ms, _) := Parse(ranks[1..], text[1..]);
    assert ([ranks[0]] + ms)[1..] == ms && ([ranks[0]] + rest)[1..] == rest;
  }

  /** A rank whose prefix is not shown is passed over. */
  lemma ParseOther(ranks: Ranks, l: Ranks, nick: string)
    requires ranks != [] && l != [] && forall m | m in l :: m.prefix != ranks[0].prefix
    ensures Parse(ranks, Prefixes(l) + nick) == Parse(ranks[1..], Prefixes(l) + nick)
  {
    assert (Prefixes(l) + nick)[0] == l[0].prefix && l[0] in l;
  }
}
