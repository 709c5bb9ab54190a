/**
 The delivery protocol over the on-disk store: a load of the store is a load of the protocol that leaves out the
 messages that do not load.
 */
module DeliveryFs {
  import opened Text
  import opened Ring
  import opened Positions
  import opened FsStore
  import opened FsCursors
  import opened FsLoads
  import D = Delivery

  const LIMIT := D.BACKLOG_LIMIT

  // ----- Leaving out what does not load -----

  /** A position that is left out: it does not load, and fewer than `limit` later ones do. */
  predicate Left(loads: nat -> bool, n: nat, limit: nat, i: nat) {
    !loads(i) && |Where(loads, i + 1, n)| < limit
  }

  /** The rest of those that could load. */
  ghost predicate Rest(could: nat -> bool, loads: nat -> bool, shown: nat -> bool, p: nat, n: nat, limit: nat) {
    && (forall i: nat | p <= i < n :: loads(i) ==> could(i))
    && (forall i: nat | p <= i < n :: shown(i) <==> could(i) && !Left(loads, n, limit, i))
    && |Where(loads, p, n)| <= limit
  }

  lemma LoadedShown(could: nat -> bool, loads: nat -> bool, shown: nat -> bool, p: nat, n: nat, limit: nat, i: nat)
    requires Rest(could, loads, shown, p, n, limit) && p <= i < n && loads(i)
    ensures shown(i) && |Where(shown, i + 1, n)| < limit
  {
    assert Where(loads, i, n) == [i] + Where(loads, i + 1, n);
    WhereLater(loads, p, i, n);
    forall j: nat | i + 1 <= j < n ensures shown(j) == loads(j) {
      WhereLater(loads, i + 1, j + 1, n);
    }
    WhereSame(shown, loads, i + 1, n);
  }

  /** The last `limit` of them are those that load. */
  lemma LastShownIff(could: nat -> bool, loads: nat -> bool, shown: nat -> bool, p: nat, n: nat, limit: nat, i: nat)
    requires Rest(could, loads, shown, p, n, limit)
    ensures i in LastN(Where(shown, p, n), limit) <==> p <= i < n && loads(i)
  {
    LastWhereIff(shown, p, n, limit, i);
    if p <= i < n {
      if loads(i) {
        LoadedShown(could, loads, shown, p, n, limit, i);
      } else {
        WhereMore(loads, shown, i + 1, n);
      }
    }
  }

  // ----- The store under the protocol -----

  /** The log of a target as the protocol sees it. */
  ghost predicate SameLog(recs: seq<Rec>, l: seq<D.Message>) {
    |recs| == |l| && forall i | 0 <= i < |l| :: l[i].Chat() <==> Talk()(recs[i])
  }

  ghost function LoadsAt(recs: seq<Rec>, id: Cursor, p: nat, now: int): nat -> bool {
    (i: nat) => Loads(recs, id, p, now, LIMIT, i)
  }

  /** The unread messages that a load leaves out. */
  ghost function Omits(recs: seq<Rec>, t: D.Target, id: Cursor, p: nat, now: int): set<(D.Target, nat)> {
    set i: nat | i < |recs| && p <= i && Talk()(recs[i]) && Left(LoadsAt(recs, id, p, now), |recs|, LIMIT, i) :: (t, i)
  }

  /** Every unread message loads, or as many appended later as fit do. */
  ghost predicate AllLoad(recs: seq<Rec>, id: Cursor, p: nat, now: int) {
    forall i: nat | p <= i < |recs| && Talk()(recs[i]) ::
      Loads(recs, id, p, now, LIMIT, i) || |Where(LoadsAt(recs, id, p, now), i + 1, |recs|)| >= LIMIT
  }

  /** No message that was read before loads. */
  ghost predicate NoneAgain(recs: seq<Rec>, id: Cursor, p: nat, now: int) {
    forall i: nat | i < p :: !Loads(recs, id, p, now, LIMIT, i)
  }

  lemma FewLoad(recs: seq<Rec>, id: Cursor, p: nat, now: int, ps: seq<nat>)
    requires |ps| <= LIMIT && forall i: nat :: i in ps <==> Loads(recs, id, p, now, LIMIT, i)
    ensures |Where(LoadsAt(recs, id, p, now), p, |recs|)| <= LIMIT
  {
    var loads := LoadsAt(recs, id, p, now);
    WhereAscends(loads, p, |recs|);
    WhereRange(loads, p, |recs|);
    NoMore(Where(loads, p, |recs|), ps);
  }

  lemma OmitsRest(recs: seq<Rec>, l: seq<D.Message>, t: D.Target, id: Cursor, p: nat, now: int, ps: seq<nat>)
    requires SameLog(recs, l)
    requires |ps| <= LIMIT && forall i: nat :: i in ps <==> Loads(recs, id, p, now, LIMIT, i)
    ensures Rest(Told(recs), LoadsAt(recs, id, p, now), D.Shown(l, t, Omits(recs, t, id, p, now)), p, |l|, LIMIT)
  {
    FewLoad(recs, id, p, now, ps);
    var loads, omitted := LoadsAt(recs, id, p, now), Omits(recs, t, id, p, now);
    forall i: nat | p <= i < |l| && loads(i) ensures Told(recs)(i) {
      LoadsRanges(recs, id, p, now, LIMIT, i);
    }
    forall i: nat | p <= i < |l|
      ensures D.Shown(l, t, omitted)(i) <==> Told(recs)(i) && !Left(loads, |l|, LIMIT, i)
    {
      assert (t, i) in omitted <==> Talk()(recs[i]) && Left(loads, |recs|, LIMIT, i);
    }
  }

  /**
   A load of the on-disk store is a load of the protocol: of the unread messages, it returns those of the backlog that
   leaves out what does not load. Nothing is left out exactly if every unread message loads, or as many appended later
   as fit do. If stamps are in order and nothing that was read before loads, they come in the same order.
   */
  lemma BacklogOnDisk(files: Files, recs: seq<Rec>, l: seq<D.Message>, id: Cursor, p: nat, now: int, entity: string,
                      me: string, t: D.Target) returns (ps: seq<nat>)
    requires Stored(files, recs) && PointsAt(recs, id, p) && Sound(recs) && SameLog(recs, l)
    ensures Load(files, id, now, entity, me, LIMIT) == Ok(Map(Shows(recs, EntryOf(entity, me)), ps))
    ensures DayOrdered(recs, ps) && forall i: nat :: i in ps <==> Loads(recs, id, p, now, LIMIT, i)
    ensures var history := D.History(l, t, Omits(recs, t, id, p, now), p);
            && (forall i: nat :: i in history <==> p <= i && i in ps)
            && (InTime(recs, id, p) && NoneAgain(recs, id, p, now) ==> ps == history)
    ensures D.Whole(l, t, Omits(recs, t, id, p, now), p) <==> AllLoad(recs, id, p, now)
  {
    ps := LoadLatestIDIff(files, recs, id, p, now, entity, me, LIMIT);
    OmitsRest(recs, l, t, id, p, now, ps);
    HistoryLoads(recs, l, t, id, p, now, ps);
    WholeIff(recs, l, t, id, p, now);
    if InTime(recs, id, p) && NoneAgain(recs, id, p, now) {
      SameOrder(recs, l, t, id, p, now, ps);
    }
  }

  lemma SameOrder(recs: seq<Rec>, l: seq<D.Message>, t: D.Target, id: Cursor, p: nat, now: int, ps: seq<nat>)
    requires Sound(recs) && InTime(recs, id, p) && NoneAgain(recs, id, p, now) && DayOrdered(recs, ps)
    requires forall i: nat :: i in ps <==> Loads(recs, id, p, now, LIMIT, i)
    requires forall i: nat :: i in D.History(l, t, Omits(recs, t, id, p, now), p) <==> p <= i && i in ps
    ensures ps == D.History(l, t, Omits(recs, t, id, p, now), p)
  {
    LoadedAscends(recs, id, p, now, LIMIT, ps);
    WhereAscends(D.Shown(l, t, Omits(recs, t, id, p, now)), p, |l|);
    SameAscending(ps, D.History(l, t, Omits(recs, t, id, p, now), p));
  }

  lemma HistoryLoads(recs: seq<Rec>, l: seq<D.Message>, t: D.Target, id: Cursor, p: nat, now: int, ps: seq<nat>)
    requires Rest(Told(recs), LoadsAt(recs, id, p, now), D.Shown(l, t, Omits(recs, t, id, p, now)), p, |l|, LIMIT)
    requires SameLog(recs, l) && forall i: nat :: i in ps <==> Loads(recs, id, p, now, LIMIT, i)
    ensures forall i: nat :: i in D.History(l, t, Omits(recs, t, id, p, now), p) <==> p <= i && i in ps
  {
    var loads, shown := LoadsAt(recs, id, p, now), D.Shown(l, t, Omits(recs, t, id, p, now));
    forall i: nat ensures i in D.History(l, t, Omits(recs, t, id, p, now), p) <==> p <= i && i in ps {
      LastShownIff(Told(recs), loads, shown, p, |l|, LIMIT, i);
      if i in ps {
        LoadsRanges(recs, id, p, now, LIMIT, i);
      }
    }
  }

  lemma WholeIff(recs: seq<Rec>, l: seq<D.Message>, t: D.Target, id: Cursor, p: nat, now: int)
    requires SameLog(recs, l)
    ensures D.Whole(l, t, Omits(recs, t, id, p, now), p) <==> AllLoad(recs, id, p, now)
  {
    var omitted, loads := Omits(recs, t, id, p, now), LoadsAt(recs, id, p, now);
    forall i: nat | p <= i < |recs| && Talk()(recs[i])
      ensures (t, i) in omitted <==> !loads(i) && |Where(loads, i + 1, |recs|)| < LIMIT
    {
      assert (t, i) in omitted <==> Left(loads, |recs|, LIMIT, i);
    }
    assert forall i | p <= i < |l| :: l[i].Chat() <==> Talk()(recs[i]);
  }
}
