/**
 What the on-disk store loads behind a cursor if messages are stamped in the order they are appended in: a condition on
 days and times alone, and the runs it is about.
 */
module FsInOrder {
  import opened Text
  import opened ZncLog
  import opened Positions
  import opened FsStore
  import opened FsCursors
  import opened FsLoads

  // ----- What is read -----

  /** Every message has a time of day. */
  ghost predicate Clocked(log: seq<Rec>) {
    forall i | 0 <= i < |log| :: log[i].clock.Valid()
  }

  lemma SoundClocked(log: seq<Rec>)
    requires Sound(log)
    ensures Clocked(log)
  {
  }

  /** Behind the cursor or on a later day, on a day that is read, and stamped before now. */
  predicate Heard(log: seq<Rec>, id: Cursor, p: nat, now: int, i: nat) {
    Ranges(log, id, p, i) && log[i].day >= id.day && Stamp(log[i]) < now
  }

  function HeardAt(log: seq<Rec>, id: Cursor, p: nat, now: int): nat -> bool {
    (i: nat) => Heard(log, id, p, now, i)
  }

  /** In order, nothing stamped at or after now comes before such a message. */
  lemma HeardIff(log: seq<Rec>, id: Cursor, p: nat, now: int, i: nat)
    requires InTime(log, id, p)
    ensures IsRead(log, id, p, now, i) <==> Heard(log, id, p, now, i)
  {
    if Heard(log, id, p, now, i) {
      var d := log[i].day;
      assert Talk()(log[i]);
      forall m | From(id, p, d) <= m <= i && m < |log| && log[m].day == d ensures !Ahead(now)(log[m]) {
        if Ahead(now)(log[m]) && m < i {
          assert Ranges(log, id, p, m) && Ranges(log, id, p, i);
        }
      }
    }
    if IsRead(log, id, p, now, i) {
      assert !Ahead(now)(log[i]) && Talk()(log[i]);
    }
  }

  lemma HeardDay(log: seq<Rec>, id: Cursor, p: nat, now: int, i: nat)
    requires Clocked(log) && Heard(log, id, p, now, i)
    ensures id.day <= log[i].day <= DayOf(now)
  {
    AheadIsLate(log[i], now);
  }

  /** Of two such messages, the later one is on no earlier day. */
  lemma HeardOrder(log: seq<Rec>, id: Cursor, p: nat, now: int, i: nat, j: nat)
    requires Clocked(log) && InTime(log, id, p) && Heard(log, id, p, now, i) && Heard(log, id, p, now, j) && i < j
    ensures log[i].day <= log[j].day
  {
    StampDay(log[i]);
    StampDay(log[j]);
  }

  lemma EarlierDay(log: seq<Rec>, id: Cursor, p: nat, now: int, i: nat, j: nat)
    requires Clocked(log) && InTime(log, id, p) && Heard(log, id, p, now, i) && Heard(log, id, p, now, j)
    requires log[i].day < log[j].day
    ensures i < j
  {
    if j < i {
      HeardOrder(log, id, p, now, j, i);
    }
  }

  lemma AcrossAscends(log: seq<Rec>, id: Cursor, p: nat, now: int, lo: int)
    requires Clocked(log) && InTime(log, id, p) && lo >= id.day
    ensures Ascending(Across(log, id, p, now, lo, DayOf(now)))
  {
    var ps := Across(log, id, p, now, lo, DayOf(now));
    AcrossOrdered(log, id, p, now, lo, DayOf(now));
    forall a, b | 0 <= a < b < |ps| ensures ps[a] < ps[b] {
      assert ps[a] in ps && ps[b] in ps;
      NewerIff(log, id, p, now, lo, ps[a]);
      NewerIff(log, id, p, now, lo, ps[b]);
      if log[ps[a]].day < log[ps[b]].day {
        EarlierDay(log, id, p, now, ps[a], ps[b]);
      }
    }
  }

  lemma AscendingConcat(a: seq<nat>, b: seq<nat>)
    requires Ascending(a) && Ascending(b) && forall x, y | x in a && y in b :: x < y
    ensures Ascending(a + b)
  {
    forall i, j | 0 <= i < j < |a + b| ensures (a + b)[i] < (a + b)[j] {
      if i < |a| <= j {
        assert (a + b)[i] in a && (a + b)[j] in b;
      }
    }
  }

  lemma NewerIff(log: seq<Rec>, id: Cursor, p: nat, now: int, lo: int, j: nat)
    requires Clocked(log) && InTime(log, id, p) && lo >= id.day
    ensures j in Across(log, id, p, now, lo, DayOf(now)) <==> Heard(log, id, p, now, j) && lo <= log[j].day
  {
    AcrossIff(log, id, p, now, lo, DayOf(now), j);
    HeardIff(log, id, p, now, j);
    if Heard(log, id, p, now, j) {
      HeardDay(log, id, p, now, j);
    }
  }

  /** What is read on a day from some position on. */
  lemma TodayIff(log: seq<Rec>, id: Cursor, p: nat, now: int, d: int, from: nat, j: nat)
    requires InTime(log, id, p) && d >= id.day
    ensures j in Where(ReadOn(log, d, From(id, p, d), Talk(), Ahead(now)), from, |log|) <==>
            from <= j && Heard(log, id, p, now, j) && log[j].day == d
  {
    WhereIff(ReadOn(log, d, From(id, p, d), Talk(), Ahead(now)), from, |log|, j);
    HeardIff(log, id, p, now, j);
  }

  lemma LaterIff(log: seq<Rec>, id: Cursor, p: nat, now: int, i: nat, j: nat)
    requires Clocked(log) && InTime(log, id, p) && Heard(log, id, p, now, i) && Heard(log, id, p, now, j)
    ensures i < j <==> (i < j && log[j].day == log[i].day) || log[i].day < log[j].day
  {
    if i < j {
      HeardOrder(log, id, p, now, i, j);
    } else if j < i {
      HeardOrder(log, id, p, now, j, i);
    }
  }

  /** What is read of a day after a position. */
  ghost predicate TodayPart(log: seq<Rec>, id: Cursor, p: nat, now: int, d: int, i: nat, today: seq<nat>) {
    Ascending(today) && forall j: nat :: j in today <==> i < j && Heard(log, id, p, now, j) && log[j].day == d
  }

  /** What is read of later days. */
  ghost predicate NewerPart(log: seq<Rec>, id: Cursor, p: nat, now: int, d: int, newer: seq<nat>) {
    Ascending(newer) && forall j: nat :: j in newer <==> Heard(log, id, p, now, j) && d < log[j].day
  }

  /** What is read after a message: some of its day, and what is on later days. */
  ghost predicate Parts(log: seq<Rec>, id: Cursor, p: nat, now: int, i: nat, today: seq<nat>, newer: seq<nat>) {
    && i < |log| && TodayPart(log, id, p, now, log[i].day, i, today) && NewerPart(log, id, p, now, log[i].day, newer)
  }

  lemma AfterToday(log: seq<Rec>, id: Cursor, p: nat, now: int, d: int, i: nat, today: seq<nat>)
    requires InTime(log, id, p) && d >= id.day
    requires today == Where(ReadOn(log, d, From(id, p, d), Talk(), Ahead(now)), i + 1, |log|)
    ensures TodayPart(log, id, p, now, d, i, today)
  {
    WhereAscends(ReadOn(log, d, From(id, p, d), Talk(), Ahead(now)), i + 1, |log|);
    forall j: nat ensures j in today <==> i < j && Heard(log, id, p, now, j) && log[j].day == d {
      TodayIff(log, id, p, now, d, i + 1, j);
    }
  }

  lemma AfterNewer(log: seq<Rec>, id: Cursor, p: nat, now: int, d: int, newer: seq<nat>)
    requires Clocked(log) && InTime(log, id, p) && d >= id.day && newer == Across(log, id, p, now, d + 1, DayOf(now))
    ensures NewerPart(log, id, p, now, d, newer)
  {
    AcrossAscends(log, id, p, now, d + 1);
    forall j: nat ensures j in newer <==> Heard(log, id, p, now, j) && d < log[j].day {
      NewerIff(log, id, p, now, d + 1, j);
    }
  }

  lemma AfterParts(log: seq<Rec>, id: Cursor, p: nat, now: int, i: nat, d: int)
    returns (today: seq<nat>, newer: seq<nat>)
    requires i < |log| && d == log[i].day
    ensures After(log, id, p, now, i) == today + newer
    ensures today == Where(ReadOn(log, d, From(id, p, d), Talk(), Ahead(now)), i + 1, |log|)
    ensures newer == Across(log, id, p, now, d + 1, DayOf(now))
  {
    today := Where(ReadOn(log, d, From(id, p, d), Talk(), Ahead(now)), i + 1, |log|);
    newer := Across(log, id, p, now, d + 1, DayOf(now));
  }

  lemma PartsAscend(log: seq<Rec>, id: Cursor, p: nat, now: int, i: nat, today: seq<nat>, newer: seq<nat>)
    requires Clocked(log) && InTime(log, id, p) && Parts(log, id, p, now, i, today, newer)
    ensures Ascending(today + newer)
  {
    forall x, y | x in today && y in newer ensures x < y {
      EarlierDay(log, id, p, now, x, y);
    }
    AscendingConcat(today, newer);
  }

  lemma PartsIff(log: seq<Rec>, id: Cursor, p: nat, now: int, i: nat, today: seq<nat>, newer: seq<nat>, j: nat)
    requires Clocked(log) && InTime(log, id, p) && Heard(log, id, p, now, i) && Parts(log, id, p, now, i, today, newer)
    ensures j in today + newer <==> i < j && Heard(log, id, p, now, j)
  {
    if Heard(log, id, p, now, j) {
      LaterIff(log, id, p, now, i, j);
    }
  }

  /** What is read after a message is what was appended after it. */
  lemma AfterIs(log: seq<Rec>, id: Cursor, p: nat, now: int, i: nat)
    requires Clocked(log) && InTime(log, id, p) && Heard(log, id, p, now, i)
    ensures After(log, id, p, now, i) == Where(HeardAt(log, id, p, now), i + 1, |log|)
  {
    var today, newer := AfterParts(log, id, p, now, i, log[i].day);
    AfterToday(log, id, p, now, log[i].day, i, today);
    AfterNewer(log, id, p, now, log[i].day, newer);
    PartsAre(log, id, p, now, i, today, newer);
  }

  lemma PartsAre(log: seq<Rec>, id: Cursor, p: nat, now: int, i: nat, today: seq<nat>, newer: seq<nat>)
    requires Clocked(log) && InTime(log, id, p) && Heard(log, id, p, now, i) && Parts(log, id, p, now, i, today, newer)
    ensures today + newer == Where(HeardAt(log, id, p, now), i + 1, |log|)
  {
    var later := Where(HeardAt(log, id, p, now), i + 1, |log|);
    PartsAscend(log, id, p, now, i, today, newer);
    WhereAscends(HeardAt(log, id, p, now), i + 1, |log|);
    forall j: nat ensures j in today + newer <==> j in later {
      PartsIff(log, id, p, now, i, today, newer, j);
      WhereIff(HeardAt(log, id, p, now), i + 1, |log|, j);
    }
    SameAscending(today + newer, later);
  }

  // ----- Silence -----

  /** No such message is stamped on any of the MAX_TRIES days up to `k`. */
  ghost predicate NoneUpTo(log: seq<Rec>, id: Cursor, p: nat, now: int, k: int) {
    forall j: nat | Heard(log, id, p, now, j) :: !(k - MAX_TRIES < log[j].day <= k)
  }

  /** There are so many silent days after day `d`. */
  ghost predicate Silence(log: seq<Rec>, id: Cursor, p: nat, now: int, d: int) {
    exists k | d + MAX_TRIES <= k <= DayOf(now) :: NoneUpTo(log, id, p, now, k)
  }

  lemma NoneUpToIff(log: seq<Rec>, id: Cursor, p: nat, now: int, k: int)
    requires InTime(log, id, p) && id.day <= k - MAX_TRIES
    ensures NoneUpTo(log, id, p, now, k) <==> forall d | k - MAX_TRIES < d <= k :: Reads(log, id, p, now, d) == []
  {
    forall d | k - MAX_TRIES < d <= k
      ensures Reads(log, id, p, now, d) == [] <==> forall j: nat | Heard(log, id, p, now, j) :: log[j].day != d
    {
      NoneRead(log, id, p, now, d);
    }
    if NoneUpTo(log, id, p, now, k) {
      forall d | k - MAX_TRIES < d <= k ensures Reads(log, id, p, now, d) == [] {
      }
    } else {
      var j: nat :| Heard(log, id, p, now, j) && k - MAX_TRIES < log[j].day <= k;
      assert Reads(log, id, p, now, log[j].day) != [];
    }
  }

  lemma NoneRead(log: seq<Rec>, id: Cursor, p: nat, now: int, d: int)
    requires InTime(log, id, p) && d >= id.day
    ensures Reads(log, id, p, now, d) == [] <==> forall j: nat | Heard(log, id, p, now, j) :: log[j].day != d
  {
    var ps := Reads(log, id, p, now, d);
    forall j: nat ensures j in ps <==> Heard(log, id, p, now, j) && log[j].day == d {
      ReadsIff(log, id, p, now, d, j);
      HeardIff(log, id, p, now, j);
    }
    FirstIn(ps);
  }

  lemma AfterCounts(log: seq<Rec>, id: Cursor, p: nat, now: int, i: nat, k: int)
    requires i < |log| && log[i].day < k <= DayOf(now)
    ensures |Across(log, id, p, now, k + 1, DayOf(now))| <= |After(log, id, p, now, i)|
  {
    FsLoads.AfterDay(log, id, p, now, i);
    AcrossSplit(log, id, p, now, log[i].day + 1, k, DayOf(now));
  }

  /** For a message with few enough after it, only the silence counts. */
  lemma SilenceIff(log: seq<Rec>, id: Cursor, p: nat, now: int, limit: nat, i: nat)
    requires InTime(log, id, p) && Heard(log, id, p, now, i) && |After(log, id, p, now, i)| < limit
    ensures QuietSince(log, id, p, now, limit, log[i].day) <==> Silence(log, id, p, now, log[i].day)
  {
    forall k | log[i].day + MAX_TRIES <= k <= DayOf(now)
      ensures Quiet(log, id, p, now, limit, k) <==> NoneUpTo(log, id, p, now, k)
    {
      NoneUpToIff(log, id, p, now, k);
      AfterCounts(log, id, p, now, i, k);
    }
  }

  /** In order, a message loads exactly under a condition on days and times. */
  lemma LoadsInOrder(log: seq<Rec>, id: Cursor, p: nat, now: int, limit: nat, i: nat)
    requires Clocked(log) && InTime(log, id, p)
    ensures Loads(log, id, p, now, limit, i) <==>
            && Heard(log, id, p, now, i) && |Where(HeardAt(log, id, p, now), i + 1, |log|)| < limit
            && !Silence(log, id, p, now, log[i].day)
  {
    HeardIff(log, id, p, now, i);
    if Heard(log, id, p, now, i) {
      AfterIs(log, id, p, now, i);
      if |After(log, id, p, now, i)| < limit {
        SilenceIff(log, id, p, now, limit, i);
      }
    }
  }

  // ----- The wanted messages -----

  /** Every wanted message is on the cursor's day or later, stamped before now, and not behind a long silence. */
  ghost predicate OnTime(log: seq<Rec>, id: Cursor, p: nat, now: int, limit: nat) {
    forall i | i in Wanted(log, p, limit) ::
      i < |log| && log[i].day >= id.day && Stamp(log[i]) < now && !Silence(log, id, p, now, log[i].day)
  }

  /** No message from before the cursor takes part: enough are wanted, or those on later days are behind a silence. */
  ghost predicate NoneRepeated(log: seq<Rec>, id: Cursor, p: nat, now: int, limit: nat) {
    |Wanted(log, p, limit)| == limit ||
    forall i: nat | i < p && Heard(log, id, p, now, i) :: Silence(log, id, p, now, log[i].day)
  }

  lemma HeardWanted(log: seq<Rec>, id: Cursor, p: nat, now: int, limit: nat, i: nat)
    requires OnTime(log, id, p, now, limit) && i in Wanted(log, p, limit)
    ensures Heard(log, id, p, now, i)
  {
    WantedIff(log, p, limit, i);
  }

  lemma FewerHeard(log: seq<Rec>, id: Cursor, p: nat, now: int, from: nat)
    ensures |Where(HeardAt(log, id, p, now), from, |log|)| <= |Where(Told(log), from, |log|)|
  {
    WhereMore(HeardAt(log, id, p, now), Told(log), from, |log|);
  }

  lemma WantedLoads(log: seq<Rec>, id: Cursor, p: nat, now: int, limit: nat, i: nat)
    requires Clocked(log) && InTime(log, id, p) && OnTime(log, id, p, now, limit) && i in Wanted(log, p, limit)
    ensures Loads(log, id, p, now, limit, i)
  {
    WantedIff(log, p, limit, i);
    FewerHeard(log, id, p, now, i + 1);
    LoadsInOrder(log, id, p, now, limit, i);
  }

  lemma WantedAfter(log: seq<Rec>, id: Cursor, p: nat, now: int, limit: nat, i: nat)
    requires OnTime(log, id, p, now, limit) && forall w | w in Wanted(log, p, limit) :: i < w
    ensures |Wanted(log, p, limit)| <= |Where(HeardAt(log, id, p, now), i + 1, |log|)|
  {
    var ws, later := Wanted(log, p, limit), Where(HeardAt(log, id, p, now), i + 1, |log|);
    forall w | w in ws ensures w in later {
      HeardWanted(log, id, p, now, limit, w);
      WhereIff(HeardAt(log, id, p, now), i + 1, |log|, w);
    }
    WantedAscends(log, p, limit);
    NoMore(ws, later);
  }

  /** If as many as fit are wanted after a message, it does not load. */
  lemma CrowdedOut(log: seq<Rec>, id: Cursor, p: nat, now: int, limit: nat, i: nat)
    requires Clocked(log) && InTime(log, id, p) && OnTime(log, id, p, now, limit)
    requires |Wanted(log, p, limit)| == limit && forall w | w in Wanted(log, p, limit) :: i < w
    ensures !Loads(log, id, p, now, limit, i)
  {
    WantedAfter(log, id, p, now, limit, i);
    LoadsInOrder(log, id, p, now, limit, i);
  }

  /** What comes before a wanted message and is not wanted comes before all of them. */
  lemma BeforeWanted(log: seq<Rec>, p: nat, limit: nat, i: nat, w: nat)
    requires i !in Wanted(log, p, limit) && w in Wanted(log, p, limit) && Told(log)(i)
    ensures i < w
  {
    if w < i {
      LaterWanted(log, p, limit, i, w);
    }
  }

  /** If fewer than fit are wanted, all behind the cursor are. */
  lemma AllWanted(log: seq<Rec>, p: nat, limit: nat, i: nat)
    requires |Wanted(log, p, limit)| < limit && p <= i && Told(log)(i)
    ensures i in Wanted(log, p, limit)
  {
    WantedIff(log, p, limit, i);
    WhereLater(Told(log), p, i + 1, |log|);
  }

  lemma OthersNot(log: seq<Rec>, id: Cursor, p: nat, now: int, limit: nat, i: nat)
    requires Clocked(log) && InTime(log, id, p) && OnTime(log, id, p, now, limit) &&
             NoneRepeated(log, id, p, now, limit)
    requires i !in Wanted(log, p, limit) && Heard(log, id, p, now, i)
    ensures !Loads(log, id, p, now, limit, i)
  {
    if |Wanted(log, p, limit)| == limit {
      forall w | w in Wanted(log, p, limit) ensures i < w {
        BeforeWanted(log, p, limit, i, w);
      }
      CrowdedOut(log, id, p, now, limit, i);
    } else {
      if p <= i {
        AllWanted(log, p, limit, i);
      }
      LoadsInOrder(log, id, p, now, limit, i);
    }
  }

  lemma SilenceEarlier(log: seq<Rec>, id: Cursor, p: nat, now: int, d: int, d': int)
    requires Silence(log, id, p, now, d') && d <= d'
    ensures Silence(log, id, p, now, d)
  {
  }

  /** The last message from before the cursor that is read would load. */
  lemma RepeatedLoads(log: seq<Rec>, id: Cursor, p: nat, now: int, limit: nat, i: nat) returns (j: nat)
    requires Clocked(log) && InTime(log, id, p) && |Wanted(log, p, limit)| < limit
    requires i < p && Heard(log, id, p, now, i) && !Silence(log, id, p, now, log[i].day)
    ensures j < p && Loads(log, id, p, now, limit, j)
    decreases p - i
  {
    if k: nat :| i < k < p && Heard(log, id, p, now, k) {
      HeardOrder(log, id, p, now, i, k);
      if Silence(log, id, p, now, log[k].day) {
        SilenceEarlier(log, id, p, now, log[i].day, log[k].day);
      }
      j := RepeatedLoads(log, id, p, now, limit, k);
    } else {
      j := i;
      HeardFrom(log, id, p, now, i);
      FewerHeard(log, id, p, now, p);
      LoadsInOrder(log, id, p, now, limit, i);
    }
  }

  lemma {:induction false} WhereSkips(q: nat -> bool, from: nat, p: nat, to: nat)
    requires from <= p && forall k: nat | from <= k < p :: !q(k)
    ensures Where(q, from, to) == Where(q, p, to)
    decreases p - from
  {
    if from < p && from < to {
      WhereSkips(q, from + 1, p, to);
      assert [] + Where(q, from + 1, to) == Where(q, from + 1, to);
    }
  }

  lemma HeardFrom(log: seq<Rec>, id: Cursor, p: nat, now: int, i: nat)
    requires i < p && forall k: nat | i < k < p :: !Heard(log, id, p, now, k)
    ensures Where(HeardAt(log, id, p, now), i + 1, |log|) == Where(HeardAt(log, id, p, now), p, |log|)
  {
    WhereSkips(HeardAt(log, id, p, now), i + 1, p, |log|);
  }

  lemma LoadedOnTime(log: seq<Rec>, id: Cursor, p: nat, now: int, limit: nat)
    requires Clocked(log) && InTime(log, id, p)
    requires forall i: nat :: i in Wanted(log, p, limit) <==> Loads(log, id, p, now, limit, i)
    ensures OnTime(log, id, p, now, limit) && NoneRepeated(log, id, p, now, limit)
  {
    forall i | i in Wanted(log, p, limit)
      ensures i < |log| && log[i].day >= id.day && Stamp(log[i]) < now && !Silence(log, id, p, now, log[i].day)
    {
      LoadsInOrder(log, id, p, now, limit, i);
    }
    if |Wanted(log, p, limit)| < limit {
      forall i: nat | i < p && Heard(log, id, p, now, i) ensures Silence(log, id, p, now, log[i].day) {
        if !Silence(log, id, p, now, log[i].day) {
          var j := RepeatedLoads(log, id, p, now, limit, i);
          WantedIff(log, p, limit, j);
        }
      }
    }
  }

  /**
   If stamps are in order, a load returns the last `limit` PRIVMSG and NOTICE messages behind the cursor, as they were
   appended, exactly if all of those are on time and none from before the cursor is repeated.
   */
  lemma InOrderIff(files: Files, log: seq<Rec>, id: Cursor, p: nat, now: int, entity: string, me: string, limit: nat)
    requires Stored(files, log) && PointsAt(log, id, p) && Sound(log) && InTime(log, id, p)
    ensures Load(files, id, now, entity, me, limit) ==
              Ok(Map(Shows(log, EntryOf(entity, me)), Wanted(log, p, limit))) <==>
            OnTime(log, id, p, now, limit) && NoneRepeated(log, id, p, now, limit)
  {
    SoundClocked(log);
    WantedLoadIff(files, log, id, p, now, entity, me, limit);
    if OnTime(log, id, p, now, limit) && NoneRepeated(log, id, p, now, limit) {
      forall i: nat ensures i in Wanted(log, p, limit) <==> Loads(log, id, p, now, limit, i) {
        if i in Wanted(log, p, limit) {
          WantedLoads(log, id, p, now, limit, i);
        } else if Heard(log, id, p, now, i) {
          OthersNot(log, id, p, now, limit, i);
        } else {
          LoadsInOrder(log, id, p, now, limit, i);
        }
      }
    } else if forall i: nat :: i in Wanted(log, p, limit) <==> Loads(log, id, p, now, limit, i) {
      LoadedOnTime(log, id, p, now, limit);
    }
  }

  /** The cursor's day is between those of the messages before and behind it, and the latter are in the past. */
  ghost predicate Punctual(log: seq<Rec>, id: Cursor, p: nat, now: int) {
    && (forall i: nat | i < p && i < |log| && Talk()(log[i]) :: log[i].day <= id.day)
    && (forall i: nat | p <= i < |log| && Talk()(log[i]) :: log[i].day >= id.day && Stamp(log[i]) < now)
  }

  /** Then only a long silence is in the way. */
  lemma PunctualIff(files: Files, log: seq<Rec>, id: Cursor, p: nat, now: int, entity: string, me: string, limit: nat)
    requires Stored(files, log) && PointsAt(log, id, p) && Sound(log) && InTime(log, id, p) && Punctual(log, id, p, now)
    ensures Load(files, id, now, entity, me, limit) ==
              Ok(Map(Shows(log, EntryOf(entity, me)), Wanted(log, p, limit))) <==>
            forall i | i in Wanted(log, p, limit) :: i < |log| && !Silence(log, id, p, now, log[i].day)
  {
    InOrderIff(files, log, id, p, now, entity, me, limit);
    forall i | i in Wanted(log, p, limit) ensures i < |log| && log[i].day >= id.day && Stamp(log[i]) < now {
      WantedIff(log, p, limit, i);
    }
    assert NoneRepeated(log, id, p, now, limit);
  }

  /** A message behind the cursor then loads exactly if fewer than the limit come after it, and no long silence. */
  lemma PunctualLoads(log: seq<Rec>, id: Cursor, p: nat, now: int, limit: nat, i: nat)
    requires Clocked(log) && InTime(log, id, p) && Punctual(log, id, p, now) && p <= i < |log| && Talk()(log[i])
    ensures Loads(log, id, p, now, limit, i) <==>
            |Where(Told(log), i + 1, |log|)| < limit && !Silence(log, id, p, now, log[i].day)
  {
    AllHeard(log, id, p, now, i);
    LoadsInOrder(log, id, p, now, limit, i);
  }

  lemma AllHeard(log: seq<Rec>, id: Cursor, p: nat, now: int, i: nat)
    requires Punctual(log, id, p, now) && p <= i < |log| && Talk()(log[i])
    ensures Heard(log, id, p, now, i)
    ensures Where(HeardAt(log, id, p, now), i + 1, |log|) == Where(Told(log), i + 1, |log|)
  {
    forall k: nat | i + 1 <= k < |log| ensures HeardAt(log, id, p, now)(k) == Told(log)(k) {
    }
    WhereSame(HeardAt(log, id, p, now), Told(log), i + 1, |log|);
  }

  // ----- Whole runs -----

  /** A message and its time tag. */
  datatype Arrival = Arrival(msg: Message, time: int)

  predicate Fit(a: Arrival) {
    && Complete(a.msg) && Loggable(a.msg) && WellFormed(a.msg) && PlainLine(MarshalLine(a.msg, ClockOf(a.time)))
    && DayOf(a.time) > ZERO_DAY
  }

  predicate AllFit(arrivals: seq<Arrival>) {
    forall i | 0 <= i < |arrivals| :: Fit(arrivals[i])
  }

  function Recs(arrivals: seq<Arrival>): seq<Rec>
    requires forall i | 0 <= i < |arrivals| :: Complete(arrivals[i].msg)
  {
    seq(|arrivals|, i requires 0 <= i < |arrivals| => RecOf(arrivals[i].msg, arrivals[i].time))
  }

  lemma LineWritten(a: Arrival)
    requires Fit(a)
    ensures MarshalLine(a.msg, ClockOf(a.time)) != ""
  {
    BodyIff(a.msg, "", "");
    StampLength(ClockOf(a.time), Format(a.msg));
  }

  lemma SoundMore(log: seq<Rec>, a: Arrival)
    requires Sound(log) && Fit(a)
    ensures Sound(log + [RecOf(a.msg, a.time)])
  {
  }

  lemma RecsNext(arrivals: seq<Arrival>)
    requires arrivals != [] && forall i | 0 <= i < |arrivals| :: Complete(arrivals[i].msg)
    ensures Recs(arrivals) == [RecOf(arrivals[0].msg, arrivals[0].time)] + Recs(arrivals[1..])
  {
  }

  /** Appending one after the other, with any time tags. */
  method AppendAll(fs: FsLog, arrivals: seq<Arrival>)
    requires fs.Valid() && Sound(fs.log) && AllFit(arrivals)
    modifies fs
    ensures fs.Valid() && Sound(fs.log) && fs.log == old(fs.log) + Recs(arrivals)
    decreases arrivals
  {
    if arrivals == [] {
      assert fs.log + [] == fs.log;
      return;
    }
    var a := arrivals[0];
    LineWritten(a);
    SoundMore(fs.log, a);
    RecsNext(arrivals);
    Assoc(fs.log, [RecOf(a.msg, a.time)], Recs(arrivals[1..]));
    var _ := fs.Append(a.msg, a.time);
    AppendAll(fs, arrivals[1..]);
  }

  /** What a load from a cursor at some place of a log returns, for any time tags and for those in order. */
  ghost predicate LoadsFrom(log: seq<Rec>, id: Cursor, p: nat, now: int, entity: string, me: string, limit: nat,
                            r: Result<seq<Entry>>, ps: seq<nat>) {
    && PointsAt(log, id, p)
    && r == Ok(Map(Shows(log, EntryOf(entity, me)), ps)) && DayOrdered(log, ps)
    && (forall i: nat :: i in ps <==> Loads(log, id, p, now, limit, i))
    && (InTime(log, id, p) ==>
          (r == Ok(Map(Shows(log, EntryOf(entity, me)), Wanted(log, p, limit))) <==>
           OnTime(log, id, p, now, limit) && NoneRepeated(log, id, p, now, limit)))
  }

  method LoadFrom(fs: FsLog, id: Cursor, ghost p: nat, now: int, owner: Owner, me: string, limit: nat)
    returns (r: Result<seq<Entry>>, ghost ps: seq<nat>)
    requires fs.Valid() && Sound(fs.log) && PointsAt(fs.log, id, p)
    ensures LoadsFrom(fs.log, id, p, now, owner.entity, me, limit, r, ps)
  {
    r := LoadLatestID(fs.files, Some(MsgId(owner, id)), owner, now, BacklogQuery(owner.entity, me), limit);
    ps := LoadLatestIDIff(fs.files, fs.log, id, p, now, owner.entity, me, limit);
    if InTime(fs.log, id, p) {
      InOrderIff(fs.files, fs.log, id, p, now, owner.entity, me, limit);
    }
  }

  /**
   The ID of one message, after any number of others with any time tags, loads exactly the messages that load; if the
   stamps are in order, these are the last `limit` PRIVMSG and NOTICE messages appended since exactly if all of those
   are on time and none from before is repeated.
   */
  method AppendAndLoad(fs: FsLog, first: Arrival, more: seq<Arrival>, now: int, owner: Owner, me: string, limit: nat)
    returns (r: Result<seq<Entry>>, id: Cursor, ghost ps: seq<nat>)
    requires fs.Valid() && Sound(fs.log) && Fit(first) && AllFit(more)
    modifies fs
    ensures fs.log == old(fs.log) + [RecOf(first.msg, first.time)] + Recs(more)
    ensures id.day == DayOf(first.time)
    ensures LoadsFrom(fs.log, id, |old(fs.log)| + 1, now, owner.entity, me, limit, r, ps)
  {
    LineWritten(first);
    SoundMore(fs.log, first);
    var first' := fs.Append(first.msg, first.time);
    id := first'.value;
    ghost var base := fs.log;
    AppendAll(fs, more);
    PointsAtKept(base, id, |base|, Recs(more));
    r, ps := LoadFrom(fs, id, |base|, now, owner, me, limit);
  }

  /** The same for the ID of LastMsgID, taken at any time. */
  method LastAndLoad(fs: FsLog, time: int, more: seq<Arrival>, now: int, owner: Owner, me: string, limit: nat)
    returns (r: Result<seq<Entry>>, id: Cursor, ghost ps: seq<nat>)
    requires fs.Valid() && Sound(fs.log) && AllFit(more)
    modifies fs
    ensures fs.log == old(fs.log) + Recs(more) && id.day == DayOf(time)
    ensures LoadsFrom(fs.log, id, |old(fs.log)|, now, owner.entity, me, limit, r, ps)
  {
    id := fs.LastMsgID(time);
    ghost var base := fs.log;
    AppendAll(fs, more);
    PointsAtKept(base, id, |base|, Recs(more));
    r, ps := LoadFrom(fs, id, |base|, now, owner, me, limit);
  }
}
