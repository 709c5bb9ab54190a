/**
 CHATHISTORY AROUND over the log files of the on-disk store. Times are whole seconds there, so nothing is loaded
 twice; what is missed is what the backward and the forward query miss.
 */
module AroundFs {
  import opened Text
  import opened ZncLog
  import opened Ring
  import opened FsStore
  import opened FsForward
  import A = Around

  /** The lower end of the backward query, which has none: the zero instant. */
  const START := DayStart(ZERO_DAY)

  // ----- The two loads -----

  /** What the backward query finds before a point in time. */
  function Back(files: Files, q: Query, bound: int, n: nat): Result<seq<Entry>> {
    Walk(BeforeDays(files, bound, START, q), OldestDay(bound, START), DayOf(bound), n, 0)
  }

  /** What the forward query finds behind an instant. */
  ghost function On(s: Span, n: nat): Result<seq<Entry>> {
    WalkOn(SomeIn(s), DayOf(s.start), s.Newest(), n, 0)
  }

  /** Where the forward query starts: at the last message found, or a second before the point in time. */
  function StartOf(before: seq<Entry>, bound: int): int {
    if |before| > 0 then A.Printed(before[|before| - 1].time) else bound - A.SECOND
  }

  ghost function Answer(files: Files, q: Query, bound: int, now: int, back: nat, on: nat): Result<seq<Entry>> {
    match Back(files, q, bound, back)
    case Err => Err
    case Ok(before) => Resume(before, On(Span(files, StartOf(before, bound), now, q), on))
  }

  /** The AROUND case of the handler, without the reply to a failure. */
  method LoadAround(files: Files, q: Query, bound: int, now: int, limit: nat) returns (r: Result<seq<Entry>>)
    ensures r == Answer(files, q, bound, now, limit - limit / 2, limit / 2)
  {
    var afterLimit := limit / 2;
    var beforeLimit := limit - afterLimit;
    var before := GetBeforeTime(files, bound, START, q, beforeLimit);
    if before.Err? {
      return Err;
    }
    var afterBound := StartOf(before.value, bound);
    var after := GetAfterTime(Span(files, afterBound, now, q), afterLimit);
    if after.Err? {
      return Err;
    }
    r := Ok(before.value + after.value);
  }

  // ----- The window -----

  ghost predicate AllSorted(files: Files, q: Query) {
    forall d | d in files :: Sorted(FileLines(files, d, -1), q)
  }

  /** All messages before a point in time. */
  function Earlier(files: Files, q: Query, bound: int): seq<Entry> {
    Between(Matching(files, bound, START, q), OldestDay(bound, START), DayOf(bound))
  }

  /** All messages from a point in time on and before now. */
  function Later(files: Files, q: Query, bound: int, now: int): seq<Entry> {
    var s := Span(files, bound - 1, now, q);
    Between(Wanted(s), DayOf(s.start), s.Newest())
  }

  function Window(files: Files, q: Query, bound: int, now: int, back: nat, on: nat): seq<Entry> {
    LastN(Earlier(files, q, bound), back) + FirstN(Later(files, q, bound, now), on)
  }

  // ----- What is on a day -----

  /** Times do not decrease. */
  ghost predicate Ordered(es: seq<Entry>) {
    forall i, j | 0 <= i <= j < |es| :: es[i].time <= es[j].time
  }

  /** Entries of one day that are stamped after one instant and before another. */
  ghost predicate Stamped(es: seq<Entry>, d: int, start: int, end: int) {
    forall e | e in es :: end < e.time < start && DayOf(e.time) == d
  }

  lemma {:induction false} SelectStamped(lines: seq<string>, d: int, start: int, end: int, q: Query)
    requires Sorted(lines, q)
    ensures Stamped(Select(lines, d, start, end, q), d, start, end)
  {
    if lines != [] {
      SortedRest(lines, q);
      SelectStamped(lines[1..], d, start, end, q);
      assert q.read(lines[0]).Line? ==> q.read(lines[0]).clock.Valid();
    }
  }

  lemma {:induction false} SelectFloor(lines: seq<string>, d: int, start: int, end: int, q: Query, t: int)
    requires forall i | 0 <= i < |lines| && q.read(lines[i]).Line? :: At(d, q.read(lines[i]).clock) >= t
    ensures forall e | e in Select(lines, d, start, end, q) :: e.time >= t
  {
    if lines != [] {
      var rest := lines[1..];
      assert forall i | 0 <= i < |rest| :: rest[i] == lines[i + 1];
      SelectFloor(rest, d, start, end, q, t);
    }
  }

  lemma {:induction false} SelectOrdered(lines: seq<string>, d: int, start: int, end: int, q: Query)
    requires Sorted(lines, q)
    ensures Ordered(Select(lines, d, start, end, q))
  {
    if lines != [] {
      var rest := lines[1..];
      SortedRest(lines, q);
      SelectOrdered(rest, d, start, end, q);
      if q.read(lines[0]).Line? {
        assert forall i | 0 <= i < |rest| :: rest[i] == lines[i + 1];
        SelectFloor(rest, d, start, end, q, At(d, q.read(lines[0]).clock));
        OrderedFirst(Entry(At(d, q.read(lines[0]).clock), q.read(lines[0]).msg), Select(rest, d, start, end, q));
      }
    }
  }

  lemma OrderedFirst(e: Entry, es: seq<Entry>)
    requires Ordered(es) && forall x | x in es :: e.time <= x.time
    ensures Ordered([e] + es)
  {
  }

  /** If no message is stamped from one instant on and before another, it makes no difference where a query starts. */
  lemma {:induction false} SelectSkips(lines: seq<string>, d: int, now: int, start: int, bound: int, q: Query)
    requires START <= start < bound && forall e | e in Select(lines, d, bound, START, q) :: e.time <= start
    ensures Select(lines, d, now, start, q) == Select(lines, d, now, bound - 1, q)
  {
    if lines != [] {
      var all, rest := Select(lines, d, bound, START, q), Select(lines[1..], d, bound, START, q);
      assert forall e | e in rest :: e in all;
      SelectSkips(lines[1..], d, now, start, bound, q);
      var r := q.read(lines[0]);
      if r.Line? && START < At(d, r.clock) < bound && q.sel(r.msg) {
        assert all[0] in all && all[0].time == At(d, r.clock);
      }
    }
  }

  // ----- Over the days -----

  /** Every day's entries are of that day and in order. */
  ghost predicate ByDay(days: Days, start: int, end: int) {
    forall d :: Stamped(OnDay(days, d), d, start, end) && Ordered(OnDay(days, d))
  }

  lemma MatchingByDay(files: Files, start: int, end: int, q: Query)
    requires AllSorted(files, q)
    ensures ByDay(Matching(files, start, end, q), start, end)
  {
    forall d ensures var es := OnDay(Matching(files, start, end, q), d); Stamped(es, d, start, end) && Ordered(es) {
      SelectStamped(FileLines(files, d, -1), d, start, end, q);
      SelectOrdered(FileLines(files, d, -1), d, start, end, q);
    }
  }

  lemma {:induction false} BetweenOrdered(days: Days, start: int, end: int, lo: int, hi: int)
    requires ByDay(days, start, end)
    ensures forall e | e in Between(days, lo, hi) :: end < e.time < start && lo <= DayOf(e.time) <= hi
    ensures Ordered(Between(days, lo, hi))
    decreases hi - lo
  {
    if lo <= hi {
      BetweenOrdered(days, start, end, lo, hi - 1);
      OrderedConcat(Between(days, lo, hi - 1), OnDay(days, hi));
    }
  }

  lemma OrderedConcat(a: seq<Entry>, b: seq<Entry>)
    requires Ordered(a) && Ordered(b) && forall x, y | x in a && y in b :: DayOf(x.time) < DayOf(y.time)
    ensures Ordered(a + b)
  {
    forall i, j | 0 <= i <= j < |a + b| ensures (a + b)[i].time <= (a + b)[j].time {
      if i < |a| <= j {
        assert (a + b)[i] in a && (a + b)[j] in b;
      }
    }
  }

  lemma {:induction false} BetweenHas(days: Days, lo: int, hi: int, d: int, e: Entry)
    requires lo <= d <= hi && e in OnDay(days, d)
    ensures e in Between(days, lo, hi)
    decreases hi - lo
  {
    if d < hi {
      BetweenHas(days, lo, hi - 1, d, e);
    }
  }

  /** Every message before a point in time is among the earlier ones. */
  lemma EarlierHas(files: Files, q: Query, bound: int, d: int, e: Entry)
    requires AllSorted(files, q) && e in Select(FileLines(files, d, -1), d, bound, START, q)
    ensures e in Earlier(files, q, bound)
  {
    var lo, hi := OldestDay(bound, START), DayOf(bound);
    if d < lo || d > hi {
      MatchingElsewhere(files, bound, START, q, d);
    } else {
      BetweenHas(Matching(files, bound, START, q), lo, hi, d, e);
    }
  }

  lemma EarlierOrdered(files: Files, q: Query, bound: int)
    requires AllSorted(files, q)
    ensures Ordered(Earlier(files, q, bound))
    ensures forall e | e in Earlier(files, q, bound) :: START < e.time < bound
  {
    MatchingByDay(files, bound, START, q);
    BetweenOrdered(Matching(files, bound, START, q), bound, START, OldestDay(bound, START), DayOf(bound));
  }

  // ----- The backward half -----

  lemma DaysMatch(files: Files, q: Query, bound: int, d: int)
    requires AllSorted(files, q) && d <= DayOf(bound)
    ensures BeforeDays(files, bound, START, q)(d) == Matching(files, bound, START, q)(d)
  {
    ScanSorted(FileLines(files, d, -1), d, UpTo(d, bound), START, q);
    SelectUpTo(FileLines(files, d, -1), d, bound, START, q);
  }

  /** A walk finds the end of what there is, down to the day it stops on. */
  lemma WalkedBack(days: Days, all: Days, lo: int, hi: int, n: nat)
    returns (stop: int, older: seq<Entry>, newer: seq<Entry>)
    requires Readable(days, lo, hi) && lo <= hi + 1 && forall d | lo <= d <= hi :: OnDay(days, d) == OnDay(all, d)
    ensures Between(all, lo, hi) == older + newer && Walk(days, lo, hi, n, 0) == Ok(LastN(newer, n))
    ensures older == Between(all, lo, stop)
    ensures older == [] || |newer| >= n || stop + MAX_TRIES <= hi
  {
    stop := WalkFinds(days, lo, hi, n);
    older, newer := Between(all, lo, stop), Between(all, stop + 1, hi);
    BetweenSplit(all, lo, stop, hi);
    BetweenSame(days, all, stop + 1, hi);
  }

  lemma BackFinds(files: Files, q: Query, bound: int, n: nat) returns (stop: int, older: seq<Entry>, newer: seq<Entry>)
    requires AllSorted(files, q)
    ensures Earlier(files, q, bound) == older + newer && Back(files, q, bound, n) == Ok(LastN(newer, n))
    ensures older == Between(Matching(files, bound, START, q), OldestDay(bound, START), stop)
    ensures older == [] || |newer| >= n || stop + MAX_TRIES <= DayOf(bound)
  {
    var lo, hi, days := OldestDay(bound, START), DayOf(bound), BeforeDays(files, bound, START, q);
    var all := Matching(files, bound, START, q);
    forall d | lo <= d <= hi ensures days(d) == all(d) {
      DaysMatch(files, q, bound, d);
    }
    stop, older, newer := WalkedBack(days, all, lo, hi, n);
  }

  // ----- The forward half -----

  /** The forward query finds no more than there is, and nothing that is not behind its start. */
  lemma OnFinds(s: Span, n: nat)
    requires SortedFiles(s)
    ensures var r := On(s, n);
            && r.Ok? && |r.value| <= |FirstN(Between(Wanted(s), DayOf(s.start), s.Newest()), n)|
            && forall e | e in r.value :: e.time > s.start
  {
    var lo, hi := DayOf(s.start), s.Newest();
    SortedSees(s);
    WalkOnResult(SomeIn(s), Visible(s), lo, hi, n);
    VisibleBetween(s, lo, hi);
    DropMidnightSome(s, Between(Wanted(s), lo, hi));
    WalkOnSeen(SomeIn(s), Visible(s), lo, lo, hi, n, 0);
    forall e | e in On(s, n).value ensures e.time > s.start {
      var k :| lo <= k <= hi && e in OnDay(Visible(s), k);
      SelectStamped(FileLines(s.files, k, -1), k, s.end, s.From(k), s.q);
      DayAhead(s, k);
    }
  }

  lemma DayAhead(s: Span, d: int)
    requires d >= DayOf(s.start)
    ensures s.From(d) >= s.start
  {
  }

  lemma WantedSilent(s: Span, d: int)
    requires SortedFiles(s) && (d < DayOf(s.start) || s.end <= s.start)
    ensures OnDay(Wanted(s), d) == []
  {
    SelectStamped(FileLines(s.files, d, -1), d, s.end, s.start, s.q);
    FirstIn(OnDay(Wanted(s), d));
  }

  lemma FirstIn(es: seq<Entry>)
    ensures es == [] || es[0] in es
  {
  }

  /** Between the last earlier message and the point in time there is nothing to want. */
  lemma SameWanted(files: Files, q: Query, bound: int, now: int, start: int, d: int)
    requires AllSorted(files, q) && START <= start < bound &&
             forall e | e in Earlier(files, q, bound) :: e.time <= start
    ensures OnDay(Wanted(Span(files, start, now, q)), d) == OnDay(Wanted(Span(files, bound - 1, now, q)), d)
  {
    forall e | e in Select(FileLines(files, d, -1), d, bound, START, q) ensures e.time <= start {
      EarlierHas(files, q, bound, d, e);
    }
    SelectSkips(FileLines(files, d, -1), d, now, start, bound, q);
  }

  /** A query may start on any day before. */
  lemma WantedFrom(s: Span, lo: int, hi: int)
    requires SortedFiles(s) && lo <= DayOf(s.start) && (s.start < s.end ==> hi == s.Newest())
    ensures Between(Wanted(s), lo, hi) == Between(Wanted(s), DayOf(s.start), s.Newest())
  {
    forall d | d < DayOf(s.start) || s.end <= s.start ensures OnDay(Wanted(s), d) == [] {
      WantedSilent(s, d);
    }
    if s.end <= s.start {
      BetweenSilent(Wanted(s), lo, hi);
    } else {
      BetweenSplit(Wanted(s), lo, DayOf(s.start) - 1, hi);
      BetweenSilent(Wanted(s), lo, DayOf(s.start) - 1);
    }
  }

  /** A query from the last earlier message on wants the later ones. */
  lemma LaterFrom(files: Files, q: Query, bound: int, now: int, start: int)
    requires AllSorted(files, q) && START <= start < bound &&
             forall e | e in Earlier(files, q, bound) :: e.time <= start
    ensures var s := Span(files, start, now, q);
            Between(Wanted(s), DayOf(start), s.Newest()) == Later(files, q, bound, now)
  {
    var s, s' := Span(files, start, now, q), Span(files, bound - 1, now, q);
    forall d ensures OnDay(Wanted(s), d) == OnDay(Wanted(s'), d) {
      SameWanted(files, q, bound, now, start, d);
    }
    BetweenSame(Wanted(s), Wanted(s'), DayOf(start), s.Newest());
    WantedFrom(s', DayOf(start), s.Newest());
  }

  // ----- Both -----

  /** Whether the backward query is not cut short. */
  ghost predicate BackWhole(files: Files, q: Query, bound: int, n: nat) {
    forall k :: !CutShort(Matching(files, bound, START, q), OldestDay(bound, START), DayOf(bound), n, k)
  }

  /** Whether no later message is at midnight of a day after that of the last earlier one, and no silence cuts off. */
  ghost predicate OnWhole(files: Files, q: Query, bound: int, now: int, n: nat) {
    var s := Span(files, StartOf(Earlier(files, q, bound), bound), now, q);
    && (forall e | e in FirstN(Later(files, q, bound, now), n) :: !AtMidnight(s, e))
    && forall k :: !CutOff(Visible(s), DayOf(s.start), s.Newest(), n, k)
  }

  lemma Multiple(k: int)
    ensures A.Printed(k * 1_000_000) == k * 1_000_000
  {
  }

  lemma WholeSecond(d: int, c: Clock)
    ensures A.Printed(At(d, c)) == At(d, c)
  {
    var k := d * 86_400_000 + c.Seconds() * 1_000;
    assert At(d, c) == k * 1_000_000;
    Multiple(k);
  }

  lemma {:induction false} SelectPrints(lines: seq<string>, d: int, start: int, end: int, q: Query)
    ensures forall e | e in Select(lines, d, start, end, q) :: A.Printed(e.time) == e.time
  {
    if lines != [] {
      SelectPrints(lines[1..], d, start, end, q);
      if q.read(lines[0]).Line? {
        WholeSecond(d, q.read(lines[0]).clock);
      }
    }
  }

  lemma {:induction false} BetweenPrints(files: Files, start: int, end: int, q: Query, lo: int, hi: int)
    ensures forall e | e in Between(Matching(files, start, end, q), lo, hi) :: A.Printed(e.time) == e.time
    decreases hi - lo
  {
    if lo <= hi {
      BetweenPrints(files, start, end, q, lo, hi - 1);
      SelectPrints(FileLines(files, hi, -1), hi, start, end, q);
    }
  }

  /** The forward query starts at or behind every earlier message, and before the point in time. */
  lemma StartsBehind(files: Files, q: Query, bound: int)
    requires AllSorted(files, q) && START + A.SECOND <= bound
    ensures var start := StartOf(Earlier(files, q, bound), bound);
            START <= start < bound && forall e | e in Earlier(files, q, bound) :: e.time <= start
  {
    var es := Earlier(files, q, bound);
    EarlierOrdered(files, q, bound);
    BetweenPrints(files, bound, START, q, OldestDay(bound, START), DayOf(bound));
    if es != [] {
      assert es[|es| - 1] in es;
      forall e | e in es ensures e.time <= es[|es| - 1].time {
        var i :| 0 <= i < |es| && es[i] == e;
      }
    }
  }

  /** The forward half comes out exactly if it is whole. */
  lemma OnIff(files: Files, q: Query, bound: int, now: int, n: nat)
    requires AllSorted(files, q) && START + A.SECOND <= bound
    ensures var s := Span(files, StartOf(Earlier(files, q, bound), bound), now, q);
            && On(s, n).Ok? && |On(s, n).value| <= |FirstN(Later(files, q, bound, now), n)|
            && (On(s, n) == Ok(FirstN(Later(files, q, bound, now), n)) <==> OnWhole(files, q, bound, now, n))
  {
    var start := StartOf(Earlier(files, q, bound), bound);
    var s := Span(files, start, now, q);
    StartsBehind(files, q, bound);
    LaterFrom(files, q, bound, now, start);
    LoadAfterTimeIff(s, n);
    OnFinds(s, n);
  }

  lemma SameStart(older: seq<Entry>, newer: seq<Entry>, bound: int, n: nat)
    requires n > 0 && (newer != [] || older == [])
    ensures StartOf(LastN(newer, n), bound) == StartOf(older + newer, bound)
  {
  }

  /** The answer from what the two queries find. */
  lemma AnswerIs(files: Files, q: Query, bound: int, now: int, back: nat, on: nat, before: seq<Entry>,
                 after: seq<Entry>)
    requires Back(files, q, bound, back) == Ok(before)
    requires On(Span(files, StartOf(before, bound), now, q), on) == Ok(after)
    ensures Answer(files, q, bound, now, back, on) == Ok(before + after)
  {
  }

  lemma SameTail(a: seq<Entry>, b: seq<Entry>, c: seq<Entry>)
    ensures a + b == a + c <==> b == c
  {
    assert (a + b)[|a|..] == b && (a + c)[|a|..] == c;
  }

  /** A backward query that is not cut short: the forward one decides. */
  lemma BothWhole(files: Files, q: Query, bound: int, now: int, back: nat, on: nat, older: seq<Entry>,
                  newer: seq<Entry>)
    requires AllSorted(files, q) && START + A.SECOND <= bound && back > 0
    requires Earlier(files, q, bound) == older + newer && Back(files, q, bound, back) == Ok(LastN(newer, back))
    requires older == [] || |newer| >= back
    ensures BackWhole(files, q, bound, back)
    ensures Answer(files, q, bound, now, back, on) == Ok(Window(files, q, bound, now, back, on)) <==>
            OnWhole(files, q, bound, now, on)
  {
    LastNConcat(older, newer, back);
    assert older == [] ==> older + newer == newer;
    LoadBeforeTimeIff(files, bound, START, q, back);
    SameStart(older, newer, bound, back);
    OnIff(files, q, bound, now, on);
    var before, after := LastN(newer, back), On(Span(files, StartOf(LastN(newer, back), bound), now, q), on).value;
    AnswerIs(files, q, bound, now, back, on, before, after);
    SameTail(before, after, FirstN(Later(files, q, bound, now), on));
  }

  /** One that is cut short after some messages: there are too few in all. */
  lemma CutShortAnswer(files: Files, q: Query, bound: int, now: int, back: nat, on: nat, older: seq<Entry>,
                       newer: seq<Entry>)
    requires AllSorted(files, q) && START + A.SECOND <= bound
    requires Earlier(files, q, bound) == older + newer && Back(files, q, bound, back) == Ok(LastN(newer, back))
    requires older != [] && 0 < |newer| < back
    ensures Answer(files, q, bound, now, back, on) != Ok(Window(files, q, bound, now, back, on))
  {
    LastNConcat(older, newer, back);
    SameStart(older, newer, bound, back);
    OnIff(files, q, bound, now, on);
    AnswerIs(files, q, bound, now, back, on, newer, On(Span(files, StartOf(newer, bound), now, q), on).value);
    assert |newer| < |LastN(older + newer, back)|;
  }

  /** One that is cut short before any message: what the answer would begin with is too old for the forward query. */
  lemma NoneFoundAnswer(files: Files, q: Query, bound: int, now: int, back: nat, on: nat, stop: int, older: seq<Entry>)
    requires AllSorted(files, q) && START + A.SECOND <= bound && older != [] && back > 0
    requires Earlier(files, q, bound) == older && Back(files, q, bound, back) == Ok([])
    requires older == Between(Matching(files, bound, START, q), OldestDay(bound, START), stop)
    requires stop + MAX_TRIES <= DayOf(bound)
    ensures Answer(files, q, bound, now, back, on) != Ok(Window(files, q, bound, now, back, on))
  {
    var s := Span(files, bound - A.SECOND, now, q);
    OnFinds(s, on);
    AnswerIs(files, q, bound, now, back, on, [], On(s, on).value);
    var e := LastN(older, back)[0];
    assert e in older;
    MatchingByDay(files, bound, START, q);
    BetweenOrdered(Matching(files, bound, START, q), bound, START, OldestDay(bound, START), stop);
    LongAgo(e.time, bound, stop);
    NotFirst(e, LastN(older, back) + FirstN(Later(files, q, bound, now), on), [] + On(s, on).value, s.start);
  }

  lemma LongAgo(time: int, bound: int, stop: int)
    requires DayOf(time) <= stop && stop + MAX_TRIES <= DayOf(bound)
    ensures time < bound - A.SECOND
  {
  }

  lemma NotFirst(e: Entry, wanted: seq<Entry>, got: seq<Entry>, start: int)
    requires wanted != [] && wanted[0] == e && e.time < start && forall x | x in got :: x.time > start
    ensures got != wanted
  {
    FirstIn(got);
  }

  /**
   Over sorted log files AROUND answers with the messages around the point in time exactly if the backward query is not
   cut short by a silence, and no message of the forward half is missed for one or at midnight.
   */
  lemma AroundFsIff(files: Files, q: Query, bound: int, now: int, back: nat, on: nat)
    requires AllSorted(files, q) && START + A.SECOND <= bound && (on > 0 ==> back > 0)
    ensures Answer(files, q, bound, now, back, on) == Ok(Window(files, q, bound, now, back, on)) <==>
            BackWhole(files, q, bound, back) && OnWhole(files, q, bound, now, on)
  {
    var stop, older, newer := BackFinds(files, q, bound, back);
    if back == 0 {
      LoadBeforeTimeIff(files, bound, START, q, 0);
      OnIff(files, q, bound, now, 0);
    } else if older == [] || |newer| >= back {
      BothWhole(files, q, bound, now, back, on, older, newer);
    } else {
      assert !BackWhole(files, q, bound, back) by {
        LastNConcat(older, newer, back);
        LoadBeforeTimeIff(files, bound, START, q, back);
      }
      if newer == [] {
        assert older + newer == older;
        NoneFoundAnswer(files, q, bound, now, back, on, stop, older);
      } else {
        CutShortAnswer(files, q, bound, now, back, on, older, newer);
      }
    }
  }

  lemma NothingEarlier(files: Files, q: Query, bound: int)
    requires forall d | d in files :: d > DayOf(bound)
    ensures Earlier(files, q, bound) == []
  {
    BetweenSilent(Matching(files, bound, START, q), OldestDay(bound, START), DayOf(bound));
  }

  /** A log whose only message is at midnight of a day after that of a point in time. */
  ghost predicate MidnightOnly(files: Files, q: Query, bound: int, now: int, d: int, line: string, c: Clock,
                               m: Message)
  {
    var s := Span(files, bound - 1, now, q);
    OnlyMidnight(s, d, line, c, m) && DayOf(bound) < d <= s.Newest()
  }

  lemma MidnightWindow(files: Files, q: Query, bound: int, now: int, d: int, line: string, c: Clock, m: Message, n: nat)
    requires MidnightOnly(files, q, bound, now, d, line, c, m) && n > 0
    ensures AllSorted(files, q) && Earlier(files, q, bound) == []
    ensures FirstN(Later(files, q, bound, now), n) == [Entry(DayStart(d), m)]
  {
    var s := Span(files, bound - 1, now, q);
    MidnightInside(s, d);
    SelectMidnight(line, d, now, bound - 1, q, c, m);
    NothingEarlier(files, q, bound);
    MidnightMissed(s, d, line, c, m, n);
  }

  lemma MidnightNotWhole(files: Files, q: Query, bound: int, now: int, d: int, n: nat, e: Entry)
    requires Earlier(files, q, bound) == [] && DayOf(bound) < d
    requires FirstN(Later(files, q, bound, now), n) == [e] && e.time == DayStart(d)
    ensures !OnWhole(files, q, bound, now, n)
  {
    assert DayOf(e.time) == d;
    assert e in [e] && AtMidnight(Span(files, bound - A.SECOND, now, q), e);
  }

  /** AROUND does not answer with it. */
  lemma AroundMidnight(files: Files, q: Query, bound: int, now: int, d: int, line: string, c: Clock, m: Message,
                       back: nat, on: nat)
    requires START + A.SECOND <= bound && on > 0 && back > 0
    requires MidnightOnly(files, q, bound, now, d, line, c, m)
    ensures Window(files, q, bound, now, back, on) == [Entry(DayStart(d), m)]
    ensures Answer(files, q, bound, now, back, on) != Ok([Entry(DayStart(d), m)])
  {
    MidnightWindow(files, q, bound, now, d, line, c, m, on);
    MidnightNotWhole(files, q, bound, now, d, on, Entry(DayStart(d), m));
    AroundFsIff(files, q, bound, now, back, on);
  }
}
