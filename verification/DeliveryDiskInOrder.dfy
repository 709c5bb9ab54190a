/**
 Runs of the delivery protocol on log files in which clocks agree: messages are stamped in the order they come in, on no
 day before the program's own, and in its past. Then only a long silence leaves a message out of a backlog.
 */
module DeliveryDiskInOrder {
  import opened Positions
  import opened FsStore
  import opened FsCursors
  import opened FsLoads
  import opened FsInOrder
  import opened DeliveryFs
  import opened DeliveryDisk
  import opened DeliveryDiskRuns
  import D = Delivery

  // ----- Clocks that agree -----

  /** Inputs that the program looks at its clock for. */
  predicate Timed(x: Input) {
    x.Say? || x.Join?
  }

  function NowOf(x: Input): int
    requires Timed(x)
  {
    match x
    case Say(_, _, _, _, _, _, _, _, now) => now
    case Join(_, now, _, _, _, _) => now
  }

  /** One input and a later one: a message is stamped on no earlier day than it was, after older ones, and then past. */
  predicate InStep(x: Input, y: Input) {
    && (Timed(x) && y.Say? ==> DayOf(NowOf(x)) <= y.rec.day)
    && (x.Say? && y.Say? && x.target == y.target ==> Stamp(x.rec) <= Stamp(y.rec))
    && (x.Say? && Timed(y) ==> Stamp(x.rec) < NowOf(y))
  }

  ghost predicate Orderly(xs: seq<Input>) {
    && (forall j | 0 <= j < |xs| && xs[j].Say? :: DayOf(xs[j].now) <= xs[j].rec.day)
    && (forall a, b | 0 <= a < b < |xs| :: InStep(xs[a], xs[b]))
  }

  // ----- Logs and IDs of such runs -----

  ghost predicate StampsInOrder(rs: seq<Rec>) {
    forall i, j | 0 <= i < j < |rs| :: Stamp(rs[i]) <= Stamp(rs[j])
  }

  /** The ID's day is between those of the messages before and behind it. */
  ghost predicate Tidy(rs: seq<Rec>, id: Cursor, p: nat) {
    && (forall i | 0 <= i < p && i < |rs| :: rs[i].day <= id.day)
    && (forall i | p <= i < |rs| :: rs[i].day >= id.day)
  }

  /** Message and target of one of the first `n` inputs. */
  ghost predicate Came(xs: seq<Input>, n: nat, t: Target, r: Rec)
    requires n <= |xs|
  {
    exists a | 0 <= a < n :: xs[a].Say? && xs[a].target == t && xs[a].rec == r
  }

  /** A day on which the program looked at its clock, or on which a message of the target was stamped. */
  ghost predicate Dated(xs: seq<Input>, n: nat, t: Target, day: int)
    requires n <= |xs|
  {
    exists a | 0 <= a < n :: DatedAt(xs[a], t, day)
  }

  predicate DatedAt(x: Input, t: Target, day: int) {
    (Timed(x) && day == DayOf(NowOf(x))) || (x.Say? && x.target == t && day == x.rec.day)
  }

  ghost predicate LogsNeat(xs: seq<Input>, n: nat, recs: History)
    requires n <= |xs|
  {
    forall t: Target {:trigger RecsOf(recs, t)} :: LogNeat(xs, n, t, RecsOf(recs, t))
  }

  ghost predicate LogNeat(xs: seq<Input>, n: nat, t: Target, rs: seq<Rec>)
    requires n <= |xs|
  {
    StampsInOrder(rs) && Clocked(rs) && forall r | r in rs :: Came(xs, n, t, r)
  }

  ghost predicate IdNeat(xs: seq<Input>, n: nat, t: Target, rs: seq<Rec>, id: Cursor, p: nat)
    requires n <= |xs|
  {
    Tidy(rs, id, p) && Dated(xs, n, t, id.day)
  }

  ghost predicate IdsNeat(xs: seq<Input>, n: nat, recs: History, ids: map<Key, Cursor>, cursors: map<Key, nat>)
    requires n <= |xs|
  {
    ids.Keys == cursors.Keys && forall k | k in ids :: IdNeat(xs, n, k.0, RecsOf(recs, k.0), ids[k], cursors[k])
  }

  ghost predicate Neat(xs: seq<Input>, n: nat, d: Disk, recs: History, s: D.State)
    requires n <= |xs|
  {
    LogsNeat(xs, n, recs) && IdsNeat(xs, n, recs, d.ids, s.cursors) && IdsNeat(xs, n, recs, d.receipts, s.receipts)
  }

  // ----- Time goes on -----

  lemma DatedOn(xs: seq<Input>, n: nat, t: Target, day: int)
    requires n < |xs| && Dated(xs, n, t, day)
    ensures Dated(xs, n + 1, t, day)
  {
    var a :| 0 <= a < n && DatedAt(xs[a], t, day);
    assert DatedAt(xs[a], t, day);
  }

  lemma LogNeatOn(xs: seq<Input>, n: nat, t: Target, rs: seq<Rec>)
    requires n < |xs| && LogNeat(xs, n, t, rs)
    ensures LogNeat(xs, n + 1, t, rs)
  {
    forall r | r in rs ensures Came(xs, n + 1, t, r) {
      var a :| 0 <= a < n && xs[a].Say? && xs[a].target == t && xs[a].rec == r;
    }
  }

  lemma LogsNeatOn(xs: seq<Input>, n: nat, recs: History)
    requires n < |xs| && LogsNeat(xs, n, recs)
    ensures LogsNeat(xs, n + 1, recs)
  {
    forall t: Target ensures LogNeat(xs, n + 1, t, RecsOf(recs, t)) {
      LogNeatOn(xs, n, t, RecsOf(recs, t));
    }
  }

  lemma IdsNeatOn(xs: seq<Input>, n: nat, recs: History, ids: map<Key, Cursor>, cursors: map<Key, nat>)
    requires n < |xs| && IdsNeat(xs, n, recs, ids, cursors)
    ensures IdsNeat(xs, n + 1, recs, ids, cursors)
  {
    forall k | k in ids ensures IdNeat(xs, n + 1, k.0, RecsOf(recs, k.0), ids[k], cursors[k]) {
      DatedOn(xs, n, k.0, ids[k].day);
    }
  }

  // ----- IDs that are handed out -----

  lemma StampOrder(a: Rec, b: Rec)
    requires a.clock.Valid() && b.clock.Valid() && Stamp(a) <= Stamp(b)
    ensures a.day <= b.day
  {
    StampDay(a);
    StampDay(b);
  }

  /** Everything logged is in the past. */
  lemma PastDay(xs: seq<Input>, n: nat, t: Target, r: Rec)
    requires Orderly(xs) && n < |xs| && Timed(xs[n]) && Came(xs, n, t, r) && r.clock.Valid()
    ensures Stamp(r) < NowOf(xs[n]) && r.day <= DayOf(NowOf(xs[n]))
  {
    var a :| 0 <= a < n && xs[a].Say? && xs[a].target == t && xs[a].rec == r;
    assert InStep(xs[a], xs[n]);
    AheadIsLate(r, NowOf(xs[n]));
  }

  /** The ID of LastMsgID. */
  lemma LastNeat(xs: seq<Input>, n: nat, t: Target, rs: seq<Rec>, files: Files)
    requires Orderly(xs) && n < |xs| && Timed(xs[n]) && LogNeat(xs, n, t, rs)
    ensures IdNeat(xs, n + 1, t, rs, LastID(files, NowOf(xs[n])), |rs|)
  {
    forall i | 0 <= i < |rs| ensures rs[i].day <= DayOf(NowOf(xs[n])) {
      assert rs[i] in rs;
      PastDay(xs, n, t, rs[i]);
    }
    assert DatedAt(xs[n], t, DayOf(NowOf(xs[n])));
  }

  /** The ID of a message. */
  lemma NamedNeat(xs: seq<Input>, n: nat, t: Target, rs: seq<Rec>, pos: nat)
    requires n <= |xs| && LogNeat(xs, n, t, rs) && pos < |rs|
    ensures IdNeat(xs, n, t, rs, IdOf(rs, pos), pos + 1)
  {
    forall i, j | 0 <= i < j < |rs| ensures rs[i].day <= rs[j].day {
      StampOrder(rs[i], rs[j]);
    }
    assert rs[pos] in rs;
    var a :| 0 <= a < n && xs[a].Say? && xs[a].target == t && xs[a].rec == rs[pos];
    assert DatedAt(xs[a], t, rs[pos].day);
  }

  // ----- A message -----

  lemma DatedBefore(xs: seq<Input>, n: nat, t: Target, day: int)
    requires Orderly(xs) && n < |xs| && xs[n].Say? && xs[n].target == t && Dated(xs, n + 1, t, day)
    requires xs[n].rec.clock.Valid() && forall a | 0 <= a < n && xs[a].Say? :: xs[a].rec.clock.Valid()
    ensures day <= xs[n].rec.day
  {
    var a :| 0 <= a < n + 1 && DatedAt(xs[a], t, day);
    if a < n {
      assert InStep(xs[a], xs[n]);
      if xs[a].Say? && xs[a].target == t && day == xs[a].rec.day {
        StampOrder(xs[a].rec, xs[n].rec);
      }
    }
  }

  lemma LogNeatMore(xs: seq<Input>, n: nat, t: Target, rs: seq<Rec>, r: Rec)
    requires Orderly(xs) && n < |xs| && xs[n].Say? && xs[n].target == t && xs[n].rec == r && r.clock.Valid()
    requires LogNeat(xs, n, t, rs)
    ensures LogNeat(xs, n + 1, t, rs + [r])
  {
    LogNeatOn(xs, n, t, rs);
    forall i | 0 <= i < |rs| ensures Stamp(rs[i]) <= Stamp(r) {
      assert rs[i] in rs;
      var a :| 0 <= a < n && xs[a].Say? && xs[a].target == t && xs[a].rec == rs[i];
      assert InStep(xs[a], xs[n]);
    }
    forall q | q in rs + [r] ensures Came(xs, n + 1, t, q) {
      assert q in rs || q == r;
    }
  }

  lemma TidyMore(rs: seq<Rec>, id: Cursor, p: nat, r: Rec)
    requires Tidy(rs, id, p) && p <= |rs| && id.day <= r.day
    ensures Tidy(rs + [r], id, p)
  {
  }

  ghost predicate Clocks(xs: seq<Input>) {
    forall a | 0 <= a < |xs| && xs[a].Say? :: xs[a].rec.clock.Valid()
  }

  lemma RunClocks(xs: seq<Input>)
    requires ValidRun(xs)
    ensures Clocks(xs)
  {
    forall a | 0 <= a < |xs| && xs[a].Say? ensures xs[a].rec.clock.Valid() {
      AfterNext(xs, a);
    }
  }

  lemma IdsNeatMore(xs: seq<Input>, n: nat, recs: History, ids: map<Key, Cursor>, cursors: map<Key, nat>)
    requires Orderly(xs) && Clocks(xs) && n < |xs| && xs[n].Say? && IdsNeat(xs, n + 1, recs, ids, cursors)
    requires IdsAgree(ids, recs, cursors)
    ensures IdsNeat(xs, n + 1, recs[xs[n].target := RecsOf(recs, xs[n].target) + [xs[n].rec]], ids, cursors)
  {
    var t, r := xs[n].target, xs[n].rec;
    var recs' := recs[t := RecsOf(recs, t) + [r]];
    forall k | k in ids ensures IdNeat(xs, n + 1, k.0, RecsOf(recs', k.0), ids[k], cursors[k]) {
      if k.0 == t {
        DatedBefore(xs, n, t, ids[k].day);
        TidyMore(RecsOf(recs, t), ids[k], cursors[k], r);
      }
    }
  }

  lemma LogsNeatMore(xs: seq<Input>, n: nat, recs: History)
    requires Orderly(xs) && Clocks(xs) && n < |xs| && xs[n].Say? && LogsNeat(xs, n, recs)
    ensures LogsNeat(xs, n + 1, recs[xs[n].target := RecsOf(recs, xs[n].target) + [xs[n].rec]])
  {
    var t, r := xs[n].target, xs[n].rec;
    var recs' := recs[t := RecsOf(recs, t) + [r]];
    forall u: Target ensures LogNeat(xs, n + 1, u, RecsOf(recs', u)) {
      if u == t {
        LogNeatMore(xs, n, t, RecsOf(recs, t), r);
      } else {
        LogNeatOn(xs, n, u, RecsOf(recs, u));
      }
    }
  }

  lemma IntroducedNeat(xs: seq<Input>, n: nat, d: Disk, recs: History, s: D.State)
    requires Orderly(xs) && n < |xs| && xs[n].Say? && Neat(xs, n, d, recs, s) && Refines(d, recs, s)
    ensures IdsNeat(xs, n + 1, recs, WithTarget(d, xs[n].target, xs[n].now).ids, D.WithTarget(s, xs[n].target).cursors)
  {
    var t := xs[n].target;
    NewIff(d, recs, s, t);
    IdsNeatOn(xs, n, recs, d.ids, s.cursors);
    LastNeat(xs, n, t, RecsOf(recs, t), FilesOf(d.files, t));
    assert TargetAgrees(FilesOf(d.files, t), RecsOf(recs, t), D.LogOf(s.log, t));
    IntroducedIds(xs, n + 1, recs, d.ids, s.cursors, Known(d.ids.Keys), t, LastID(FilesOf(d.files, t), xs[n].now),
                  |RecsOf(recs, t)|);
  }

  lemma IntroducedID(ids: map<Key, Cursor>, cs: set<Client>, t: Target, id: Cursor, k: Key)
    ensures var ids' := ids + map c | c in cs :: (t, c) := id;
            && (k in ids' <==> k in ids || (k.0 == t && k.1 in cs))
            && (k.0 == t && k.1 in cs ==> ids'[k] == id)
            && (k in ids && !(k.0 == t && k.1 in cs) ==> ids'[k] == ids[k])
  {
    assert k == (k.0, k.1);
  }

  lemma IntroducedCursor(cursors: map<Key, nat>, cs: set<Client>, t: Target, p: nat, k: Key)
    ensures var cursors' := D.Introduce(cursors, cs, t, p);
            && (k in cursors' <==> k in cursors || (k.0 == t && k.1 in cs))
            && (k.0 == t && k.1 in cs ==> cursors'[k] == p)
            && (k in cursors && !(k.0 == t && k.1 in cs) ==> cursors'[k] == cursors[k])
  {
    assert k == (k.0, k.1);
  }

  lemma IntroducedIds(xs: seq<Input>, n: nat, recs: History, ids: map<Key, Cursor>, cursors: map<Key, nat>,
                      cs: set<Client>, t: Target, id: Cursor, p: nat)
    requires n <= |xs| && IdsNeat(xs, n, recs, ids, cursors) && IdNeat(xs, n, t, RecsOf(recs, t), id, p)
    ensures IdsNeat(xs, n, recs, ids + map c | c in cs :: (t, c) := id, D.Introduce(cursors, cs, t, p))
  {
    var ids', cursors' := ids + map c | c in cs :: (t, c) := id, D.Introduce(cursors, cs, t, p);
    forall k ensures k in ids' <==> k in cursors' {
      IntroducedID(ids, cs, t, id, k);
      IntroducedCursor(cursors, cs, t, p, k);
    }
    assert ids'.Keys == cursors'.Keys;
    forall k | k in ids' ensures IdNeat(xs, n, k.0, RecsOf(recs, k.0), ids'[k], cursors'[k]) {
      IntroducedID(ids, cs, t, id, k);
      IntroducedCursor(cursors, cs, t, p, k);
    }
  }

  lemma IdsNeatUpdate(xs: seq<Input>, n: nat, recs: History, ids: map<Key, Cursor>, cursors: map<Key, nat>, k: Key,
                      id: Cursor, p: nat)
    requires n <= |xs| && IdsNeat(xs, n, recs, ids, cursors) && IdNeat(xs, n, k.0, RecsOf(recs, k.0), id, p)
    ensures IdsNeat(xs, n, recs, ids[k := id], cursors[k := p])
  {
    forall q | q in ids[k := id] ensures IdNeat(xs, n, q.0, RecsOf(recs, q.0), ids[k := id][q], cursors[k := p][q]) {
    }
  }

  /** One more target, if the message is its first. */
  lemma KnownNeat(xs: seq<Input>, n: nat, d: Disk, recs: History, s: D.State, d1: Disk, s1: D.State)
    requires Orderly(xs) && n < |xs| && xs[n].Say? && Neat(xs, n, d, recs, s) && Refines(d, recs, s)
    requires d1 == if New(d, xs[n].target) then WithTarget(d, xs[n].target, xs[n].now) else d
    requires s1 == if New(d, xs[n].target) then D.WithTarget(s, xs[n].target) else s
    ensures IdsNeat(xs, n + 1, recs, d1.ids, s1.cursors) && IdsNeat(xs, n + 1, recs, d1.receipts, s1.receipts)
    ensures LogsNeat(xs, n + 1, recs)
  {
    IdsNeatOn(xs, n, recs, d.ids, s.cursors);
    IdsNeatOn(xs, n, recs, d.receipts, s.receipts);
    LogsNeatOn(xs, n, recs);
    IntroducedNeat(xs, n, d, recs, s);
  }

  /** The message is logged, or not; IDs and cursors are those from before. */
  lemma LoggedNeat(xs: seq<Input>, n: nat, recs: History, kept: bool, ids: map<Key, Cursor>, cursors: map<Key, nat>,
                   receipts: map<Key, Cursor>, stored: map<Key, nat>, d: Disk, s: D.State)
    requires Orderly(xs) && Clocks(xs) && n < |xs| && xs[n].Say? && LogsNeat(xs, n, recs)
    requires IdsAgree(ids, recs, cursors) && IdsAgree(receipts, recs, stored)
    requires IdsNeat(xs, n + 1, recs, ids, cursors) && IdsNeat(xs, n + 1, recs, receipts, stored)
    requires d.ids == ids && d.receipts == receipts && s.cursors == cursors && s.receipts == stored
    ensures Neat(xs, n + 1, d, if kept then recs[xs[n].target := RecsOf(recs, xs[n].target) + [xs[n].rec]] else recs, s)
  {
    if kept {
      LogsNeatMore(xs, n, recs);
      IdsNeatMore(xs, n, recs, ids, cursors);
      IdsNeatMore(xs, n, recs, receipts, stored);
    } else {
      LogsNeatOn(xs, n, recs);
    }
  }

  /** Telling connections moves no ID and no cursor. */
  lemma SaidKeeps(d: Disk, recs: History, s: D.State, x: Input, at: nat, d1: Disk, s1: D.State)
    requires x.Say? && Logs(d, x) && (New(d, x.target) <==> D.Introduces(s, x.target))
    requires d1 == if New(d, x.target) then WithTarget(d, x.target, x.now) else d
    requires s1 == if New(d, x.target) then D.WithTarget(s, x.target) else s
    ensures DoSay(d, x, at).ids == d1.ids && DoSay(d, x, at).receipts == d1.receipts
    ensures D.DoProduce(s, Produced(x)).cursors == s1.cursors && D.DoProduce(s, Produced(x)).receipts == s1.receipts
  {
    SaidIs(d, recs, s, x, at, d1, s1, FilesOf(d.files, x.target));
  }

  lemma UnloggedNeat(xs: seq<Input>, n: nat, d: Disk, recs: History, s: D.State)
    requires n < |xs| && xs[n].Say? && Neat(xs, n, d, recs, s) && Refines(d, recs, s) && !Logs(d, xs[n])
    ensures Neat(xs, n + 1, DoSay(d, xs[n], n), Said(d, recs, xs[n]), D.DoProduce(s, Produced(xs[n])))
  {
    NewIff(d, recs, s, xs[n].target);
    IdsNeatOn(xs, n, recs, d.ids, s.cursors);
    IdsNeatOn(xs, n, recs, d.receipts, s.receipts);
    LogsNeatOn(xs, n, recs);
    assert D.DoProduce(s, Produced(xs[n])) == s;
  }

  lemma SaidNeat(xs: seq<Input>, n: nat, d: Disk, recs: History, s: D.State, d1: Disk, s1: D.State)
    requires Orderly(xs) && Clocks(xs) && n < |xs| && xs[n].Say? && LogsNeat(xs, n, recs)
    requires IdsAgree(d1.ids, recs, s1.cursors) && IdsAgree(d1.receipts, recs, s1.receipts)
    requires IdsNeat(xs, n + 1, recs, d1.ids, s1.cursors) && IdsNeat(xs, n + 1, recs, d1.receipts, s1.receipts)
    requires Logs(d, xs[n]) && (New(d, xs[n].target) <==> D.Introduces(s, xs[n].target))
    requires d1 == if New(d, xs[n].target) then WithTarget(d, xs[n].target, xs[n].now) else d
    requires s1 == if New(d, xs[n].target) then D.WithTarget(s, xs[n].target) else s
    ensures Neat(xs, n + 1, DoSay(d, xs[n], n), Said(d, recs, xs[n]), D.DoProduce(s, Produced(xs[n])))
  {
    SaidKeeps(d, recs, s, xs[n], n, d1, s1);
    LoggedNeat(xs, n, recs, Kept(xs[n]), d1.ids, s1.cursors, d1.receipts, s1.receipts, DoSay(d, xs[n], n),
               D.DoProduce(s, Produced(xs[n])));
  }

  lemma SayNeat(xs: seq<Input>, n: nat, d: Disk, recs: History, s: D.State)
    requires Orderly(xs) && Clocks(xs) && n < |xs| && xs[n].Say? && Refines(d, recs, s) && Neat(xs, n, d, recs, s)
    ensures Neat(xs, n + 1, DoSay(d, xs[n], n), Said(d, recs, xs[n]), D.DoProduce(s, Produced(xs[n])))
  {
    if Logs(d, xs[n]) {
      var d1 := if New(d, xs[n].target) then WithTarget(d, xs[n].target, xs[n].now) else d;
      var s1 := if New(d, xs[n].target) then D.WithTarget(s, xs[n].target) else s;
      NewIff(d, recs, s, xs[n].target);
      TargetKnown(d, recs, s, xs[n].target, xs[n].now);
      KnownNeat(xs, n, d, recs, s, d1, s1);
      SaidNeat(xs, n, d, recs, s, d1, s1);
    } else {
      UnloggedNeat(xs, n, d, recs, s);
    }
  }

  // ----- Other inputs -----

  lemma JoinNeat(xs: seq<Input>, n: nat, d: Disk, recs: History, s: D.State)
    requires Orderly(xs) && n < |xs| && xs[n].Join? && Refines(d, recs, s) && Neat(xs, n, d, recs, s)
    ensures Neat(xs, n + 1, DoJoin(d, xs[n], n), recs, D.DoConnect(s, Connected(d, recs, s, xs[n])))
  {
    var x, e := xs[n], Connected(d, recs, s, xs[n]);
    IdsNeatOn(xs, n, recs, d.ids, s.cursors);
    IdsNeatOn(xs, n, recs, d.receipts, s.receipts);
    LogsNeatOn(xs, n, recs);
    ConnectKeeps(s, e);
    JoinKeeps(d, x, n);
    FirstIff(recs, d, s, x.dc.client);
    if Replays(d, x) {
      ReplayNeat(xs, n, d, recs, s);
    }
  }

  lemma ReplayNeat(xs: seq<Input>, n: nat, d: Disk, recs: History, s: D.State)
    requires Orderly(xs) && n < |xs| && xs[n].Join? && Refines(d, recs, s) && Neat(xs, n, d, recs, s)
    requires Replays(d, xs[n]) && IdsNeat(xs, n + 1, recs, d.ids, s.cursors)
    ensures IdsNeat(xs, n + 1, recs, DoJoin(d, xs[n], n).ids, D.DoConnect(s, Connected(d, recs, s, xs[n])).cursors)
  {
    var x, e := xs[n], Connected(d, recs, s, xs[n]);
    var ids, cursors := DoJoin(d, x, n).ids, D.DoConnect(s, e).cursors;
    FirstIff(recs, d, s, x.dc.client);
    CursorKeys(s, e);
    assert ids.Keys == d.ids.Keys;
    forall k | k in ids ensures IdNeat(xs, n + 1, k.0, RecsOf(recs, k.0), ids[k], cursors[k]) {
      CursorAfter(s, e, k);
      assert TargetAgrees(FilesOf(d.files, k.0), RecsOf(recs, k.0), D.LogOf(s.log, k.0));
      LastNeat(xs, n, k.0, RecsOf(recs, k.0), FilesOf(d.files, k.0));
    }
  }

  lemma AnswerNeat(xs: seq<Input>, n: nat, d: Disk, recs: History, s: D.State, pos: nat)
    requires n < |xs| && xs[n].Answer? && xs[n].index < |d.peers| == |s.conns| && Neat(xs, n, d, recs, s)
    requires Names(recs, xs[n].target, xs[n].id, pos) && d.peers[xs[n].index].dc.client == s.conns[xs[n].index].client
    ensures Neat(xs, n + 1, DoAnswer(d, xs[n]), recs, D.DoPong(s, D.Pong(xs[n].index, xs[n].target, pos)))
  {
    var x := xs[n];
    NamedNeat(xs, n, x.target, RecsOf(recs, x.target), pos);
    IdsNeatUpdate(xs, n, recs, d.ids, s.cursors, (x.target, s.conns[x.index].client), x.id, pos + 1);
    PongIs(s, x.index, x.target, pos);
    NeatOn(xs, n, DoAnswer(d, x), recs, D.DoPong(s, D.Pong(x.index, x.target, pos)));
  }

  lemma NeatOn(xs: seq<Input>, n: nat, d: Disk, recs: History, s: D.State)
    requires n < |xs| && Neat(xs, n, d, recs, s)
    ensures Neat(xs, n + 1, d, recs, s)
  {
    IdsNeatOn(xs, n, recs, d.ids, s.cursors);
    IdsNeatOn(xs, n, recs, d.receipts, s.receipts);
    LogsNeatOn(xs, n, recs);
  }

  /** What is stored once one client's entries are replaced. */
  function Replaced<V>(a: map<Key, V>, b: map<Key, V>, c: Client): map<Key, V> {
    (map k | k in a && k.1 != c :: a[k]) + (map k | k in b && k.1 == c :: b[k])
  }

  lemma ReplacedAt<V>(a: map<Key, V>, b: map<Key, V>, c: Client, k: Key)
    ensures k in Replaced(a, b, c) <==> if k.1 == c then k in b else k in a
    ensures k in Replaced(a, b, c) ==> Replaced(a, b, c)[k] == if k.1 == c then b[k] else a[k]
  {
  }

  lemma ReplacedKeys<V, W>(a: map<Key, V>, b: map<Key, V>, a': map<Key, W>, b': map<Key, W>, c: Client)
    requires a.Keys == a'.Keys && b.Keys == b'.Keys
    ensures Replaced(a, b, c).Keys == Replaced(a', b', c).Keys
  {
    forall k ensures k in Replaced(a, b, c) <==> k in Replaced(a', b', c) {
      ReplacedAt(a, b, c, k);
      ReplacedAt(a', b', c, k);
      assert k in a <==> k in a';
      assert k in b <==> k in b';
    }
  }

  lemma ReplacedNeat(xs: seq<Input>, n: nat, recs: History, ids: map<Key, Cursor>, cursors: map<Key, nat>,
                     ids': map<Key, Cursor>, cursors': map<Key, nat>, c: Client)
    requires n <= |xs| && IdsNeat(xs, n, recs, ids, cursors) && IdsNeat(xs, n, recs, ids', cursors')
    ensures IdsNeat(xs, n, recs, Replaced(ids, ids', c), Replaced(cursors, cursors', c))
  {
    var a, b := Replaced(ids, ids', c), Replaced(cursors, cursors', c);
    ReplacedKeys(ids, ids', cursors, cursors', c);
    forall k | k in a ensures IdNeat(xs, n, k.0, RecsOf(recs, k.0), a[k], b[k]) {
      ReplacedAt(ids, ids', c, k);
      ReplacedAt(cursors, cursors', c, k);
    }
  }

  lemma LeaveIs(d: Disk, recs: History, s: D.State, x: Input, c: Client)
    requires Refines(d, recs, s) && x.Leave? && x.index < |d.peers| && s.conns[x.index].client == c
    ensures var d', s' := DoLeave(d, x), D.DoDisconnect(s, D.Disconnect(x.index));
            && d'.ids == d.ids && s'.cursors == s.cursors
            && d'.receipts == Replaced(d.receipts, d.ids, c) && s'.receipts == Replaced(s.receipts, s.cursors, c)
  {
    assert PeerAgrees(recs, d.peers[x.index], s.conns[x.index]);
  }

  lemma LeaveNeat(xs: seq<Input>, n: nat, d: Disk, recs: History, s: D.State)
    requires n < |xs| && xs[n].Leave? && xs[n].index < |d.peers| && Refines(d, recs, s) && Neat(xs, n, d, recs, s)
    ensures Neat(xs, n + 1, DoLeave(d, xs[n]), recs, D.DoDisconnect(s, D.Disconnect(xs[n].index)))
  {
    var c := s.conns[xs[n].index].client;
    LeaveIs(d, recs, s, xs[n], c);
    ReplacedNeat(xs, n, recs, d.receipts, s.receipts, d.ids, s.cursors, c);
    NeatOn(xs, n, DoLeave(d, xs[n]), recs, D.DoDisconnect(s, D.Disconnect(xs[n].index)));
  }

  /** Some entries, and those of other clients. */
  function Completed<V>(a: map<Key, V>, b: map<Key, V>, cs: set<Client>): map<Key, V> {
    (map k | k in a && k.1 !in cs :: a[k]) + b
  }

  lemma CompletedAt<V>(a: map<Key, V>, b: map<Key, V>, cs: set<Client>, k: Key)
    ensures k in Completed(a, b, cs) <==> k in b || (k in a && k.1 !in cs)
    ensures k in Completed(a, b, cs) ==> Completed(a, b, cs)[k] == if k in b then b[k] else a[k]
  {
  }

  lemma CompletedKeys<V, W>(a: map<Key, V>, b: map<Key, V>, a': map<Key, W>, b': map<Key, W>, cs: set<Client>)
    requires a.Keys == a'.Keys && b.Keys == b'.Keys
    ensures Completed(a, b, cs).Keys == Completed(a', b', cs).Keys
  {
    forall k ensures k in Completed(a, b, cs) <==> k in Completed(a', b', cs) {
      CompletedAt(a, b, cs, k);
      CompletedAt(a', b', cs, k);
      assert k in a <==> k in a';
      assert k in b <==> k in b';
    }
  }

  lemma CompletedNeat(xs: seq<Input>, n: nat, recs: History, ids: map<Key, Cursor>, cursors: map<Key, nat>,
                      ids': map<Key, Cursor>, cursors': map<Key, nat>, cs: set<Client>)
    requires n <= |xs| && IdsNeat(xs, n, recs, ids, cursors) && IdsNeat(xs, n, recs, ids', cursors')
    ensures IdsNeat(xs, n, recs, Completed(ids, ids', cs), Completed(cursors, cursors', cs))
  {
    var a, b := Completed(ids, ids', cs), Completed(cursors, cursors', cs);
    CompletedKeys(ids, ids', cursors, cursors', cs);
    forall k | k in a ensures IdNeat(xs, n, k.0, RecsOf(recs, k.0), a[k], b[k]) {
      CompletedAt(ids, ids', cs, k);
      CompletedAt(cursors, cursors', cs, k);
    }
  }

  lemma RebootIs(d: Disk, s: D.State, x: Input)
    requires x.Reboot? && d.ids.Keys == s.cursors.Keys
    ensures var d', s', cs := DoReboot(d, x), D.DoRestart(s, D.Restart(x.clean)), D.Clients(s.cursors);
            && d'.ids == d'.receipts == (if x.clean then Completed(d.receipts, d.ids, cs) else d.receipts)
            && s'.cursors == s'.receipts == (if x.clean then Completed(s.receipts, s.cursors, cs) else s.receipts)
  {
    assert Known(d.ids.Keys) == D.Clients(s.cursors);
  }

  lemma RebootNeat(xs: seq<Input>, n: nat, d: Disk, recs: History, s: D.State)
    requires n < |xs| && xs[n].Reboot? && Neat(xs, n, d, recs, s)
    ensures Neat(xs, n + 1, DoReboot(d, xs[n]), recs, D.DoRestart(s, D.Restart(xs[n].clean)))
  {
    RebootIs(d, s, xs[n]);
    CompletedNeat(xs, n, recs, d.receipts, s.receipts, d.ids, s.cursors, D.Clients(s.cursors));
    NeatOn(xs, n, DoReboot(d, xs[n]), recs, D.DoRestart(s, D.Restart(xs[n].clean)));
  }

  // ----- Whole runs -----

  lemma StepNeat(xs: seq<Input>, n: nat, d: Disk, recs: History, s: D.State, e: D.Event)
    requires Orderly(xs) && Clocks(xs) && n < |xs| && Refines(d, recs, s) && Neat(xs, n, d, recs, s)
    requires Matches(d, recs, s, xs[n], e) && D.Enabled(s, e)
    ensures Neat(xs, n + 1, Step(d, xs[n], n), Said(d, recs, xs[n]), D.Step(s, e))
  {
    if xs[n].Say? {
      SayNeat(xs, n, d, recs, s);
    } else if xs[n].Join? {
      JoinNeat(xs, n, d, recs, s);
    } else {
      QuietStepNeat(xs, n, d, recs, s, e);
    }
  }

  /** Inputs that log nothing and read nothing. */
  lemma QuietStepNeat(xs: seq<Input>, n: nat, d: Disk, recs: History, s: D.State, e: D.Event)
    requires n < |xs| && Refines(d, recs, s) && Neat(xs, n, d, recs, s) && !xs[n].Say? && !xs[n].Join?
    requires Matches(d, recs, s, xs[n], e) && D.Enabled(s, e)
    ensures Neat(xs, n + 1, Step(d, xs[n], n), recs, D.Step(s, e))
  {
    match xs[n]
    case Answer(_, _, _) => AnsweredNeat(xs, n, d, recs, s, e);
    case Leave(_) => LeaveNeat(xs, n, d, recs, s);
    case Detach(_, _) => NeatOn(xs, n, d, recs, s);
    case Reboot(_) => RebootNeat(xs, n, d, recs, s);
  }

  lemma AnsweredNeat(xs: seq<Input>, n: nat, d: Disk, recs: History, s: D.State, e: D.Event)
    requires n < |xs| && xs[n].Answer? && xs[n].index < |d.peers| && Refines(d, recs, s) && Neat(xs, n, d, recs, s)
    requires Matches(d, recs, s, xs[n], e)
    ensures Neat(xs, n + 1, DoAnswer(d, xs[n]), recs, D.DoPong(s, e))
  {
    assert PeerAgrees(recs, d.peers[xs[n].index], s.conns[xs[n].index]);
    AnswerNeat(xs, n, d, recs, s, e.pos);
  }

  lemma {:induction false} NeatAt(xs: seq<Input>, es: seq<D.Event>, n: nat)
    requires ValidRun(xs) && Orderly(xs) && Follows(xs, es) && n <= |xs|
    ensures Neat(xs, n, DiskAfter(xs[..n]), Logged(xs[..n]), StateAt(es, n))
    decreases n
  {
    if n == 0 {
      assert xs[..0] == [] && es[..0] == [];
    } else {
      NeatAt(xs, es, n - 1);
      NeatNext(xs, es, n - 1);
    }
  }

  lemma NeatNext(xs: seq<Input>, es: seq<D.Event>, n: nat)
    requires ValidRun(xs) && Orderly(xs) && Follows(xs, es) && n < |xs|
    requires Neat(xs, n, DiskAfter(xs[..n]), Logged(xs[..n]), StateAt(es, n))
    ensures Neat(xs, n + 1, DiskAfter(xs[..n + 1]), Logged(xs[..n + 1]), StateAt(es, n + 1))
  {
    RunClocks(xs);
    FollowsTogether(xs, es, n);
    TogetherNext(xs, es, n, es[n]);
    AfterNext(xs, n);
    StepNeat(xs, n, DiskAfter(xs[..n]), Logged(xs[..n]), StateAt(es, n), es[n]);
  }

  // ----- What is not left out -----

  /** After a day there are so many days in a row without a PRIVMSG or NOTICE in the log. */
  ghost predicate Lull(rs: seq<Rec>, now: int, day: int) {
    exists k | day + MAX_TRIES <= k <= DayOf(now) :: QuietUpTo(rs, k)
  }

  ghost predicate QuietUpTo(rs: seq<Rec>, k: int) {
    forall q | 0 <= q < |rs| && Talk()(rs[q]) :: !(k - MAX_TRIES < rs[q].day <= k)
  }

  ghost predicate AllPast(rs: seq<Rec>, now: int) {
    forall i | 0 <= i < |rs| :: Stamp(rs[i]) < now
  }

  lemma LaterDay(rs: seq<Rec>, i: nat, q: nat)
    requires StampsInOrder(rs) && Clocked(rs) && i < |rs| && q < |rs|
    ensures rs[i].day < rs[q].day ==> i < q
  {
    if q < i {
      StampOrder(rs[q], rs[i]);
    }
  }

  lemma LaterHeard(rs: seq<Rec>, id: Cursor, p: nat, now: int, i: nat, q: nat)
    requires StampsInOrder(rs) && Clocked(rs) && Tidy(rs, id, p) && AllPast(rs, now) && p <= i < |rs|
    requires q < |rs| && Talk()(rs[q]) && rs[i].day < rs[q].day
    ensures Heard(rs, id, p, now, q)
  {
    LaterDay(rs, i, q);
  }

  /** A silence in what is read is one in the log. */
  lemma SilenceIsLull(rs: seq<Rec>, id: Cursor, p: nat, now: int, i: nat, day: int)
    requires StampsInOrder(rs) && Clocked(rs) && Tidy(rs, id, p) && AllPast(rs, now) && p <= i < |rs|
    requires rs[i].day <= day && Silence(rs, id, p, now, day)
    ensures Lull(rs, now, rs[i].day)
  {
    var k :| day + MAX_TRIES <= k <= DayOf(now) && NoneUpTo(rs, id, p, now, k);
    forall q | 0 <= q < |rs| && Talk()(rs[q]) ensures !(k - MAX_TRIES < rs[q].day <= k) {
      if rs[i].day < rs[q].day {
        LaterHeard(rs, id, p, now, i, q);
      }
    }
    assert QuietUpTo(rs, k);
  }

  lemma OrderedPunctual(rs: seq<Rec>, id: Cursor, p: nat, now: int)
    requires StampsInOrder(rs) && Tidy(rs, id, p) && AllPast(rs, now)
    ensures InTime(rs, id, p) && Punctual(rs, id, p, now)
  {
  }

  /** So a message behind the cursor loads if there is room for it. */
  lemma OrderedLoads(rs: seq<Rec>, id: Cursor, p: nat, now: int, i: nat, w: nat)
    requires StampsInOrder(rs) && Clocked(rs) && Tidy(rs, id, p) && AllPast(rs, now) && p <= i <= w < |rs|
    requires Talk()(rs[w]) && !Lull(rs, now, rs[i].day) && |Where(Told(rs), w + 1, |rs|)| < LIMIT
    ensures Loads(rs, id, p, now, LIMIT, w)
  {
    OrderedPunctual(rs, id, p, now);
    PunctualLoads(rs, id, p, now, LIMIT, w);
    if i < w {
      StampOrder(rs[i], rs[w]);
    }
    if Silence(rs, id, p, now, rs[w].day) {
      SilenceIsLull(rs, id, p, now, i, rs[w].day);
    }
  }

  /** And if there is none, as many as fit load after it. */
  lemma OrderedFull(rs: seq<Rec>, id: Cursor, p: nat, now: int, i: nat)
    requires StampsInOrder(rs) && Clocked(rs) && Tidy(rs, id, p) && AllPast(rs, now) && p <= i < |rs|
    requires Talk()(rs[i]) && !Lull(rs, now, rs[i].day) && |Where(Told(rs), i + 1, |rs|)| >= LIMIT
    ensures |Where(LoadsAt(rs, id, p, now), i + 1, |rs|)| >= LIMIT
  {
    var ws, loads := Wanted(rs, i + 1, LIMIT), LoadsAt(rs, id, p, now);
    forall w | w in ws ensures w in Where(loads, i + 1, |rs|) {
      WantedIff(rs, i + 1, LIMIT, w);
      OrderedLoads(rs, id, p, now, i, w);
      WhereIff(loads, i + 1, |rs|, w);
    }
    WantedAscends(rs, i + 1, LIMIT);
    NoMore(ws, Where(loads, i + 1, |rs|));
  }

  /** Nothing behind the cursor is left out. */
  lemma OrderedFate(d: Disk, x: Input, t: Target, rs: seq<Rec>, p: nat, i: nat)
    requires x.Join? && (t, x.dc.client) in d.ids && p <= i < |rs| && Talk()(rs[i])
    requires StampsInOrder(rs) && Clocked(rs) && Tidy(rs, d.ids[(t, x.dc.client)], p) && AllPast(rs, x.now)
    requires !Lull(rs, x.now, rs[i].day)
    ensures FateOf(d, x, t, rs, p, i) != D.Omitted
  {
    var id := d.ids[(t, x.dc.client)];
    if |Where(Told(rs), i + 1, |rs|)| < LIMIT {
      OrderedLoads(rs, id, p, x.now, i, i);
    } else {
      OrderedFull(rs, id, p, x.now, i);
    }
  }

  lemma PastLog(xs: seq<Input>, n: nat, t: Target, rs: seq<Rec>)
    requires Orderly(xs) && n < |xs| && Timed(xs[n]) && LogNeat(xs, n, t, rs)
    ensures AllPast(rs, NowOf(xs[n]))
  {
    forall i | 0 <= i < |rs| ensures Stamp(rs[i]) < NowOf(xs[n]) {
      assert rs[i] in rs;
      PastDay(xs, n, t, rs[i]);
    }
  }

  /** What is settled for a message is not that it was left out. */
  lemma NotLeftOut(xs: seq<Input>, es: seq<D.Event>, j: nat, f: D.Fate, c: Client, t: Target, i: nat, r: Rec)
    requires ValidRun(xs) && Orderly(xs) && Follows(xs, es) && SettledAt(xs, es, j, f, c, t, i)
    requires xs[j].Join? ==>
      && i < |RecsOf(Logged(xs[..j]), t)| && RecsOf(Logged(xs[..j]), t)[i] == r && Talk()(r)
      && !Lull(RecsOf(Logged(xs[..j]), t), xs[j].now, r.day)
    ensures f != D.Omitted
  {
    if xs[j].Join? {
      var d, recs, s := DiskAfter(xs[..j]), Logged(xs[..j]), StateAt(es, j);
      NeatAt(xs, es, j);
      PastLog(xs, j, t, RecsOf(recs, t));
      assert (t, c) in d.ids;
      OrderedFate(d, xs[j], t, RecsOf(recs, t), s.cursors[(t, c)], i);
    }
  }

  /** There is no lull between the message and any later connect of the client. */
  ghost predicate Lively(xs: seq<Input>, m: nat, c: Client)
    requires m < |xs| && xs[m].Say?
  {
    forall j: nat | m < j < |xs| && xs[j].Join? && xs[j].dc.client == c ::
      !Lull(RecsOf(Logged(xs[..j]), xs[m].target), xs[j].now, xs[m].rec.day)
  }

  /**
   If clocks agree and there is no lull, every such message was written to the client, live or in a batch, unless it was
   withheld, too old or could not be read: none is left out.
   */
  lemma DeliveredInOrder(xs: seq<Input>, m: nat, c: Client) returns (es: seq<D.Event>, j: nat, f: D.Fate)
    requires ValidRun(xs) && Chats(xs, m) && Held(xs, m, (xs[m].target, c)) && PlainPeer(DiskAfter(xs).peers, c)
    requires Orderly(xs) && Lively(xs, m, c)
    ensures Follows(xs, es) && SettledAt(xs, es, j, f, c, xs[m].target, PlaceOf(xs, m)) && f != D.Omitted
    ensures if xs[j].Say? then j == m else m < j
    ensures Step(DiskAfter(xs[..j]), xs[j], j).out <= DiskAfter(xs).out
  {
    es, j, f := DeliveredFromDisk(xs, m, c);
    if xs[j].Join? {
      PlacedAt(xs, m, j);
      assert xs[j].dc.client == c;
    }
    NotLeftOut(xs, es, j, f, c, xs[m].target, PlaceOf(xs, m), xs[m].rec);
  }
}
