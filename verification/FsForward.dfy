/**
 The forward query of the on-disk store. From the second day on it starts at midnight and excludes its
 start, so it misses messages stamped exactly 00:00:00; this module says when that shows.
 */
module FsForward {
  import opened Text
  import opened ZncLog
  import opened Ring
  import opened FsStore

  // ----- One day -----

  /** The first `limit` messages of a day strictly between `ref` and `end`; nothing after them is read. */
  function ScanSome(lines: seq<string>, d: int, ref: int, end: int, q: Query, limit: nat): (r: Result<seq<Entry>>)
    ensures r.Ok? ==> |r.value| <= limit
  {
    if lines == [] || limit == 0 then Ok([])
    else
      match Judge(lines[0], d, end, ref, q)
      case Fail => Err
      case Skip => ScanSome(lines[1..], d, ref, end, q, limit)
      case Stop => Ok([])
      case Take(e) => Resume([e], ScanSome(lines[1..], d, ref, end, q, limit - 1))
  }

  method ParseMessagesAfter(lines: seq<string>, d: int, ref: int, end: int, q: Query, limit: nat)
    returns (r: Result<seq<Entry>>)
    ensures r == ScanSome(lines, d, ref, end, q, limit)
  {
    var history: seq<Entry> := [];
    var i := 0;
    ghost var all := ScanSome(lines, d, ref, end, q, limit);
    assert lines[0..] == lines && (all.Ok? ==> [] + all.value == all.value);
    while i < |lines| && |history| < limit
      invariant 0 <= i <= |lines| && |history| <= limit
      invariant all == Resume(history, ScanSome(lines[i..], d, ref, end, q, limit - |history|))
    {
      var verdict := Judge(lines[i], d, end, ref, q);
      assert lines[i..][1..] == lines[i + 1..];
      i := i + 1;
      if verdict.Fail? {
        return Err;
      } else if verdict.Stop? {
        break;
      } else if verdict.Take? {
        ResumeTwice(history, verdict.entry, ScanSome(lines[i..], d, ref, end, q, limit - |history| - 1));
        history := history + [verdict.entry];
      }
    }
    assert history + [] == history;
    r := Ok(history);
  }

  // ----- Walking on over the days -----

  /** The first n messages of each day, if its file can be read. */
  type SomeOf = (int, nat) -> Result<seq<Entry>>

  ghost predicate Bounded(some: SomeOf) {
    forall d, n: nat :: some(d, n).Ok? ==> |some(d, n).value| <= n
  }

  ghost function WalkOn(some: SomeOf, d: int, hi: int, remaining: nat, tries: nat): Result<seq<Entry>>
    requires Bounded(some) && tries <= MAX_TRIES
    decreases remaining, MAX_TRIES - tries
  {
    if remaining == 0 || tries == MAX_TRIES || d > hi then Ok([])
    else
      match some(d, remaining)
      case Err => Err
      case Ok(buf) => Resume(buf, WalkOn(some, d + 1, hi, remaining - |buf|, if buf == [] then tries + 1 else 0))
  }

  /** A forward query: the files, its bounds and its filter. */
  datatype Span = Span(files: Files, start: int, end: int, q: Query) {
    /** The instant day `d` is read from. */
    function From(d: int): int { if d == DayOf(start) then start else DayStart(d) }

    /** The newest day that can hold a message before `end`. */
    function Newest(): int { if start < end then DayOf(end - 1) else DayOf(start) - 1 }
  }

  function SomeIn(s: Span): (some: SomeOf)
    ensures Bounded(some)
  {
    (d: int, n: nat) => ScanSome(FileLines(s.files, d, -1), d, s.From(d), s.end, s.q, n)
  }

  lemma NewestReached(s: Span, d: int)
    requires d >= DayOf(s.start)
    ensures s.From(d) < s.end <==> d <= s.Newest()
  {
  }

  lemma DayAfter(d: int)
    ensures DayOf(DayStart(d + 1)) == d + 1
  {
  }

  /** The walk is at the start of a day, or where it began. */
  ghost predicate OnDayAt(s: Span, t: int, day: int) {
    DayOf(t) == day >= DayOf(s.start) && t == s.From(day) && (t < s.end <==> day <= s.Newest())
  }

  lemma NextDay(s: Span, t: int, day: int)
    requires OnDayAt(s, t, day)
    ensures OnDayAt(s, DayStart(day + 1), day + 1)
  {
    DayAfter(day);
    NewestReached(s, day + 1);
  }

  /** The whole of what is found is what was found so far and what the rest of the walk finds. */
  ghost predicate GoesOn(all: Result<seq<Entry>>, messages: seq<Entry>, some: SomeOf, d: int, hi: int, remaining: nat,
                         tries: nat)
  {
    Bounded(some) && tries <= MAX_TRIES && all == Resume(messages, WalkOn(some, d, hi, remaining, tries))
  }

  /** The body of the loop: read one day and add what it holds. */
  method TakeDayOn(messages: seq<Entry>, lines: seq<string>, d: int, ref: int, end: int, q: Query,
                   remaining: nat, tries: nat, ghost some: SomeOf, ghost hi: int, ghost all: Result<seq<Entry>>)
    returns (ok: bool, messages': seq<Entry>, remaining': nat, tries': nat)
    requires 0 < remaining && tries < MAX_TRIES && d <= hi
    requires Bounded(some) && some(d, remaining) == ScanSome(lines, d, ref, end, q, remaining)
    requires GoesOn(all, messages, some, d, hi, remaining, tries)
    ensures !ok ==> all == Err
    ensures ok ==>
      && remaining' <= remaining && tries' <= MAX_TRIES
      && (remaining' < remaining || tries' == tries + 1)
      && GoesOn(all, messages', some, d + 1, hi, remaining', tries')
  {
    var found := ParseMessagesAfter(lines, d, ref, end, q, remaining);
    if found.Err? {
      return false, messages, remaining, tries;
    }
    var buf := found.value;
    WalkOnDay(some, d, hi, remaining, tries, buf, messages);
    ok, messages', remaining', tries' := true, messages + buf, remaining - |buf|, if |buf| == 0 then tries + 1 else 0;
  }

  method GetAfterTime(s: Span, limit: nat) returns (r: Result<seq<Entry>>)
    ensures r == WalkOn(SomeIn(s), DayOf(s.start), s.Newest(), limit, 0)
  {
    var messages: seq<Entry> := [];
    var remaining, tries, t := limit, 0, s.start;
    ghost var some, day, hi := SomeIn(s), DayOf(s.start), s.Newest();
    ghost var all := WalkOn(some, day, hi, limit, 0);
    assert all.Ok? ==> [] + all.value == all.value;
    NewestReached(s, day);
    assert OnDayAt(s, t, day);
    while remaining > 0 && tries < MAX_TRIES && t < s.end
      invariant 0 <= remaining <= limit && 0 <= tries <= MAX_TRIES
      invariant OnDayAt(s, t, day)
      invariant GoesOn(all, messages, some, day, hi, remaining, tries)
      decreases remaining, MAX_TRIES - tries
    {
      var d := DayOf(t);
      var ok;
      ok, messages, remaining, tries :=
        TakeDayOn(messages, FileLines(s.files, d, -1), d, t, s.end, s.q, remaining, tries, some, hi, all);
      if !ok {
        return Err;
      }
      NextDay(s, t, day);
      t, day := DayStart(d + 1), day + 1;
    }
    assert messages + [] == messages;
    r := Ok(messages);
  }

  lemma WalkOnDay(some: SomeOf, d: int, hi: int, remaining: nat, tries: nat, buf: seq<Entry>, older: seq<Entry>)
    requires Bounded(some) && remaining > 0 && tries < MAX_TRIES && d <= hi && some(d, remaining) == Ok(buf)
    ensures |buf| <= remaining
    ensures Resume(older, WalkOn(some, d, hi, remaining, tries)) ==
            Resume(older + buf, WalkOn(some, d + 1, hi, remaining - |buf|, if |buf| == 0 then tries + 1 else 0))
  {
    var newer := WalkOn(some, d + 1, hi, remaining - |buf|, if buf == [] then tries + 1 else 0);
    assert newer.Ok? ==> older + (buf + newer.value) == older + buf + newer.value;
  }

  // ----- What a forward query over sorted files returns -----

  /** What the query can see: from the second day on, nothing at midnight. */
  function Visible(s: Span): Days {
    d => Ok(Select(FileLines(s.files, d, -1), d, s.end, s.From(d), s.q))
  }

  ghost predicate SortedFiles(s: Span) {
    forall d | d in s.files :: Sorted(FileLines(s.files, d, -1), s.q)
  }

  lemma {:induction false} ScanSomeSorted(lines: seq<string>, d: int, ref: int, end: int, q: Query, limit: nat)
    requires Sorted(lines, q)
    ensures ScanSome(lines, d, ref, end, q, limit) == Ok(FirstN(Select(lines, d, end, ref, q), limit))
    decreases lines
  {
    if lines != [] && limit > 0 {
      SortedRest(lines, q);
      match Judge(lines[0], d, end, ref, q)
      case Take(e) =>
        ScanSomeSorted(lines[1..], d, ref, end, q, limit - 1);
        FirstNConcat([e], Select(lines[1..], d, end, ref, q), limit);
      case Stop => ScanSorted(lines, d, end, ref, q);
      case Skip => ScanSomeSorted(lines[1..], d, ref, end, q, limit);
      case Fail =>
    }
  }

  ghost predicate SilentFrom(days: Days, d: int) {
    forall k | d <= k < d + MAX_TRIES :: OnDay(days, k) == []
  }

  /** A silence that ends the walk before `limit` messages were found although newer ones exist. */
  ghost predicate CutOff(days: Days, lo: int, hi: int, limit: nat, d: int) {
    && lo <= d && d + MAX_TRIES <= hi
    && SilentFrom(days, d)
    && |Between(days, lo, d - 1)| < limit
    && Between(days, d + MAX_TRIES, hi) != []
  }

  /** What the walk has found when it is at day `d`: everything older, with the last `tries` days silent. */
  ghost predicate WalkingOn(days: Days, lo: int, hi: int, limit: nat, d: int, remaining: nat, tries: nat) {
    && lo <= d - tries && d <= hi + 1 && tries <= MAX_TRIES
    && remaining == limit - |FirstN(Between(days, lo, d - 1), limit)|
    && forall k | d - tries <= k < d :: OnDay(days, k) == []
  }

  lemma FirstNConcat<T>(a: seq<T>, b: seq<T>, n: nat)
    ensures |a| <= n ==> FirstN(a + b, n) == a + FirstN(b, n - |a|)
    ensures |a| >= n ==> FirstN(a + b, n) == FirstN(a, n)
  {
  }

  lemma WalkOnStep(days: Days, lo: int, hi: int, limit: nat, d: int, remaining: nat, tries: nat)
    requires WalkingOn(days, lo, hi, limit, d, remaining, tries) && remaining > 0 && tries < MAX_TRIES && d <= hi
    ensures var buf := FirstN(OnDay(days, d), remaining);
            && |buf| <= remaining
            && WalkingOn(days, lo, hi, limit, d + 1, remaining - |buf|, if buf == [] then tries + 1 else 0)
            && FirstN(Between(days, lo, d), limit) == FirstN(Between(days, lo, d - 1), limit) + buf
  {
    FirstNConcat(Between(days, lo, d - 1), OnDay(days, d), limit);
  }

  /** Each day yields the first messages of the corresponding day of `days`. */
  ghost predicate Sees(some: SomeOf, days: Days) {
    Bounded(some) && forall d, n: nat :: some(d, n) == Ok(FirstN(OnDay(days, d), n))
  }

  lemma SortedSees(s: Span)
    requires SortedFiles(s)
    ensures Sees(SomeIn(s), Visible(s))
  {
    forall d, n: nat ensures SomeIn(s)(d, n) == Ok(FirstN(OnDay(Visible(s), d), n)) {
      ScanSomeSorted(FileLines(s.files, d, -1), d, s.From(d), s.end, s.q, n);
    }
  }

  lemma WalkOnUnfold(some: SomeOf, days: Days, d: int, hi: int, remaining: nat, tries: nat, head: seq<Entry>)
    requires Sees(some, days) && remaining > 0 && tries < MAX_TRIES && d <= hi
    ensures var buf := FirstN(OnDay(days, d), remaining);
            var newer := WalkOn(some, d + 1, hi, remaining - |buf|, if buf == [] then tries + 1 else 0);
            newer.Ok? ==> var r := WalkOn(some, d, hi, remaining, tries);
                          r.Ok? && head + r.value == (head + buf) + newer.value
  {
    assert some(d, remaining) == Ok(FirstN(OnDay(days, d), remaining));
  }

  /** With what the walk from day `d` on finds, the messages of the days before make so many. */
  ghost predicate Makes(some: SomeOf, days: Days, lo: int, hi: int, limit: nat, d: int, remaining: nat, tries: nat,
                        all: seq<Entry>)
    requires Bounded(some) && tries <= MAX_TRIES
  {
    var r := WalkOn(some, d, hi, remaining, tries);
    r.Ok? && FirstN(Between(days, lo, d - 1), limit) + r.value == all
  }

  lemma WalkOnExtends(some: SomeOf, days: Days, lo: int, hi: int, limit: nat, d: int, remaining: nat, tries: nat,
                      all: seq<Entry>)
    requires Sees(some, days) && WalkingOn(days, lo, hi, limit, d, remaining, tries)
    requires remaining > 0 && tries < MAX_TRIES && d <= hi
    requires var buf := FirstN(OnDay(days, d), remaining);
             Makes(some, days, lo, hi, limit, d + 1, remaining - |buf|, if buf == [] then tries + 1 else 0, all)
    ensures Makes(some, days, lo, hi, limit, d, remaining, tries, all)
  {
    WalkOnStep(days, lo, hi, limit, d, remaining, tries);
    WalkOnUnfold(some, days, d, hi, remaining, tries, FirstN(Between(days, lo, d - 1), limit));
  }

  lemma WalkOnEnds(some: SomeOf, days: Days, lo: int, hi: int, limit: nat, d: int, remaining: nat, tries: nat)
    requires Bounded(some) && tries <= MAX_TRIES && (remaining == 0 || tries == MAX_TRIES || d > hi)
    ensures Makes(some, days, lo, hi, limit, d, remaining, tries, FirstN(Between(days, lo, d - 1), limit))
  {
    var older := FirstN(Between(days, lo, d - 1), limit);
    assert older + [] == older;
  }

  lemma WalkOnSilenced(days: Days, lo: int, hi: int, limit: nat, d: int, remaining: nat)
    requires WalkingOn(days, lo, hi, limit, d, remaining, MAX_TRIES) && remaining > 0 && d <= hi
    ensures CutOff(days, lo, hi, limit, d - MAX_TRIES) || Between(days, lo, hi) == Between(days, lo, d - 1)
  {
    BetweenSplit(days, lo, d - 1, hi);
    BetweenSplit(days, lo, d - MAX_TRIES - 1, d - 1);
    BetweenSilent(days, d - MAX_TRIES, d - 1);
    assert SilentFrom(days, d - MAX_TRIES);
  }

  lemma WalkOnDone(days: Days, lo: int, hi: int, limit: nat, d: int)
    requires lo <= d <= hi + 1 && (d > hi || |Between(days, lo, d - 1)| >= limit)
    ensures FirstN(Between(days, lo, hi), limit) == FirstN(Between(days, lo, d - 1), limit)
  {
    BetweenSplit(days, lo, d - 1, hi);
    FirstNConcat(Between(days, lo, d - 1), Between(days, d, hi), limit);
  }

  lemma {:induction false} WalkOnComplete(some: SomeOf, days: Days, lo: int, hi: int, limit: nat, d: int,
                                          remaining: nat, tries: nat, all: seq<Entry>)
    requires Sees(some, days) && WalkingOn(days, lo, hi, limit, d, remaining, tries)
    requires all == FirstN(Between(days, lo, hi), limit) && forall k :: !CutOff(days, lo, hi, limit, k)
    ensures Makes(some, days, lo, hi, limit, d, remaining, tries, all)
    decreases remaining, MAX_TRIES - tries
  {
    if remaining == 0 || d > hi {
      WalkOnDone(days, lo, hi, limit, d);
      WalkOnEnds(some, days, lo, hi, limit, d, remaining, tries);
    } else if tries == MAX_TRIES {
      WalkOnSilenced(days, lo, hi, limit, d, remaining);
      WalkOnEnds(some, days, lo, hi, limit, d, remaining, tries);
    } else {
      WalkOnStep(days, lo, hi, limit, d, remaining, tries);
      var buf := FirstN(OnDay(days, d), remaining);
      WalkOnComplete(some, days, lo, hi, limit, d + 1, remaining - |buf|, if buf == [] then tries + 1 else 0, all);
      WalkOnExtends(some, days, lo, hi, limit, d, remaining, tries, all);
    }
  }

  lemma CutOffAhead(days: Days, lo: int, hi: int, limit: nat, d: int, remaining: nat, tries: nat, k: int)
    requires WalkingOn(days, lo, hi, limit, d, remaining, tries)
    requires CutOff(days, lo, hi, limit, k) && d - tries <= k
    ensures remaining > 0 && d <= hi
  {
    var heard := Between(days, lo, d - tries - 1);
    assert |heard| < limit by {
      BetweenSplit(days, lo, d - tries - 1, k - 1);
    }
    assert Between(days, lo, d - 1) == heard by {
      BetweenSplit(days, lo, d - tries - 1, d - 1);
      BetweenSilent(days, d - tries, d - 1);
      assert heard + [] == heard;
    }
  }

  lemma GivesUpEarly(days: Days, lo: int, hi: int, limit: nat, d: int, k: int)
    requires CutOff(days, lo, hi, limit, k) && lo <= d <= k + MAX_TRIES
    requires |Between(days, lo, d - 1)| < limit
    ensures |FirstN(Between(days, lo, d - 1), limit)| < |FirstN(Between(days, lo, hi), limit)|
  {
    BetweenSplit(days, lo, d - 1, hi);
    BetweenSplit(days, d, k + MAX_TRIES - 1, hi);
  }

  lemma {:induction false} WalkOnTooShort(some: SomeOf, days: Days, lo: int, hi: int, limit: nat, d: int,
                                          remaining: nat, tries: nat, k: int) returns (all: seq<Entry>)
    requires Sees(some, days) && WalkingOn(days, lo, hi, limit, d, remaining, tries)
    requires CutOff(days, lo, hi, limit, k) && d - tries <= k
    ensures Makes(some, days, lo, hi, limit, d, remaining, tries, all) && |all| < |FirstN(Between(days, lo, hi), limit)|
    decreases remaining, MAX_TRIES - tries
  {
    CutOffAhead(days, lo, hi, limit, d, remaining, tries, k);
    if tries == MAX_TRIES {
      all := FirstN(Between(days, lo, d - 1), limit);
      WalkOnEnds(some, days, lo, hi, limit, d, remaining, tries);
      GivesUpEarly(days, lo, hi, limit, d, k);
    } else {
      WalkOnStep(days, lo, hi, limit, d, remaining, tries);
      var buf := FirstN(OnDay(days, d), remaining);
      assert buf != [] ==> d < k;
      all := WalkOnTooShort(some, days, lo, hi, limit, d + 1, remaining - |buf|, if buf == [] then tries + 1 else 0, k);
      WalkOnExtends(some, days, lo, hi, limit, d, remaining, tries, all);
    }
  }

  // ----- Midnight -----

  /** All messages strictly between `start` and `end`, by day. */
  function Wanted(s: Span): Days {
    d => Ok(Select(FileLines(s.files, d, -1), d, s.end, s.start, s.q))
  }

  /** Stamped 00:00:00 on a day after the one the query starts on. */
  predicate AtMidnight(s: Span, e: Entry) {
    DayOf(e.time) > DayOf(s.start) && e.time == DayStart(DayOf(e.time))
  }

  function DropMidnight(s: Span, es: seq<Entry>): seq<Entry> {
    if es == [] then []
    else if AtMidnight(s, es[0]) then DropMidnight(s, es[1..])
    else [es[0]] + DropMidnight(s, es[1..])
  }

  lemma {:induction false} DropMidnightConcat(s: Span, a: seq<Entry>, b: seq<Entry>)
    ensures DropMidnight(s, a + b) == DropMidnight(s, a) + DropMidnight(s, b)
  {
    if a == [] {
      assert a + b == b;
    } else {
      assert (a + b)[1..] == a[1..] + b;
      DropMidnightConcat(s, a[1..], b);
    }
  }

  lemma {:induction false} DropMidnightSome(s: Span, es: seq<Entry>)
    ensures forall e | e in DropMidnight(s, es) :: !AtMidnight(s, e)
    ensures |DropMidnight(s, es)| <= |es|
  {
    if es != [] {
      DropMidnightSome(s, es[1..]);
    }
  }

  /** A clean beginning is not touched. */
  lemma {:induction false} DropMidnightFirst(s: Span, es: seq<Entry>, n: nat)
    requires forall e | e in FirstN(es, n) :: !AtMidnight(s, e)
    ensures FirstN(DropMidnight(s, es), n) == FirstN(es, n)
    decreases es
  {
    if es != [] && n > 0 {
      assert FirstN(es, n)[0] == es[0];
      FirstNConcat([es[0]], es[1..], n);
      assert es == [es[0]] + es[1..];
      assert forall e | e in FirstN(es[1..], n - 1) :: e in FirstN(es, n);
      DropMidnightFirst(s, es[1..], n - 1);
      FirstNConcat([es[0]], DropMidnight(s, es[1..]), n);
    } else if n == 0 {
      assert FirstN(DropMidnight(s, es), n) == [] == FirstN(es, n);
    }
  }

  /** On every day the query sees what is wanted except what is stamped midnight. */
  lemma {:induction false} VisibleOnDay(s: Span, lines: seq<string>, d: int)
    requires Sorted(lines, s.q) && d >= DayOf(s.start)
    ensures Select(lines, d, s.end, s.From(d), s.q) == DropMidnight(s, Select(lines, d, s.end, s.start, s.q))
  {
    if lines != [] {
      SortedRest(lines, s.q);
      VisibleOnDay(s, lines[1..], d);
      var r := s.q.read(lines[0]);
      if r.Line? {
        assert r.clock.Valid();
        var t := At(d, r.clock);
        assert DayOf(t) == d;
        assert Entry(t, r.msg).time == t;
        assert [Entry(t, r.msg)] + Select(lines[1..], d, s.end, s.start, s.q) != [];
        DropMidnightConcat(s, [Entry(t, r.msg)], Select(lines[1..], d, s.end, s.start, s.q));
      }
    }
  }

  lemma {:induction false} VisibleBetween(s: Span, lo: int, hi: int)
    requires SortedFiles(s) && lo >= DayOf(s.start)
    ensures Between(Visible(s), lo, hi) == DropMidnight(s, Between(Wanted(s), lo, hi))
    decreases hi - lo
  {
    if lo <= hi {
      VisibleBetween(s, lo, hi - 1);
      VisibleOnDay(s, FileLines(s.files, hi, -1), hi);
      DropMidnightConcat(s, Between(Wanted(s), lo, hi - 1), OnDay(Wanted(s), hi));
    }
  }

  /** The query returns the first `limit` of what it can see, or fewer if a silence cuts it off. */
  lemma WalkOnResult(some: SomeOf, days: Days, lo: int, hi: int, limit: nat)
    requires Sees(some, days) && lo <= hi + 1
    ensures var r := WalkOn(some, lo, hi, limit, 0);
            && r.Ok?
            && ((forall k :: !CutOff(days, lo, hi, limit, k)) ==> r.value == FirstN(Between(days, lo, hi), limit))
            && ((exists k :: CutOff(days, lo, hi, limit, k)) ==> |r.value| < |FirstN(Between(days, lo, hi), limit)|)
  {
    assert Between(days, lo, lo - 1) == [];
    assert WalkingOn(days, lo, hi, limit, lo, limit, 0);
    if k :| CutOff(days, lo, hi, limit, k) {
      var all := WalkOnTooShort(some, days, lo, hi, limit, lo, limit, 0, k);
      var r := WalkOn(some, lo, hi, limit, 0).value;
      assert [] + r == r;
    } else {
      WalkOnComplete(some, days, lo, hi, limit, lo, limit, 0, FirstN(Between(days, lo, hi), limit));
      var r := WalkOn(some, lo, hi, limit, 0).value;
      assert [] + r == r;
    }
  }

  /** What the walk returns never contains a midnight message of a later day. */
  lemma {:induction false} WalkOnSeen(some: SomeOf, days: Days, lo: int, d: int, hi: int, remaining: nat, tries: nat)
    requires Sees(some, days) && tries <= MAX_TRIES && lo <= d
    ensures var r := WalkOn(some, d, hi, remaining, tries);
            r.Ok? && forall e | e in r.value :: exists k :: lo <= k <= hi && e in OnDay(days, k)
    decreases remaining, MAX_TRIES - tries
  {
    if remaining > 0 && tries < MAX_TRIES && d <= hi {
      var buf := FirstN(OnDay(days, d), remaining);
      assert some(d, remaining) == Ok(buf);
      assert forall e | e in buf :: e in OnDay(days, d);
      WalkOnSeen(some, days, lo, d + 1, hi, remaining - |buf|, if buf == [] then tries + 1 else 0);
    }
  }

  lemma ResultCleanOfMidnight(s: Span, limit: nat)
    requires SortedFiles(s)
    ensures var r := WalkOn(SomeIn(s), DayOf(s.start), s.Newest(), limit, 0);
            r.Ok? && forall e | e in r.value :: !AtMidnight(s, e)
  {
    var lo, hi := DayOf(s.start), s.Newest();
    SortedSees(s);
    WalkOnSeen(SomeIn(s), Visible(s), lo, lo, hi, limit, 0);
    var r := WalkOn(SomeIn(s), lo, hi, limit, 0);
    forall e | e in r.value ensures !AtMidnight(s, e) {
      var k :| lo <= k <= hi && e in OnDay(Visible(s), k);
      VisibleOnDay(s, FileLines(s.files, k, -1), k);
      DropMidnightSome(s, Select(FileLines(s.files, k, -1), k, s.end, s.start, s.q));
    }
  }

  /**
   LoadAfterTime over sorted files returns exactly the first `limit` messages strictly between the bounds,
   if and only if none of those is stamped midnight on a later day and no silence cuts the query off.
   */
  lemma LoadAfterTimeIff(s: Span, limit: nat)
    requires SortedFiles(s)
    ensures var lo, hi := DayOf(s.start), s.Newest();
            var wanted := FirstN(Between(Wanted(s), lo, hi), limit);
            WalkOn(SomeIn(s), lo, hi, limit, 0) == Ok(wanted)
            <==> (forall e | e in wanted :: !AtMidnight(s, e)) &&
                 (forall k :: !CutOff(Visible(s), lo, hi, limit, k))
  {
    var lo, hi := DayOf(s.start), s.Newest();
    var all := Between(Wanted(s), lo, hi);
    SortedSees(s);
    WalkOnResult(SomeIn(s), Visible(s), lo, hi, limit);
    VisibleBetween(s, lo, hi);
    ResultCleanOfMidnight(s, limit);
    DropMidnightSome(s, all);
    if forall e | e in FirstN(all, limit) :: !AtMidnight(s, e) {
      DropMidnightFirst(s, all, limit);
    }
  }

  lemma {:induction false} OnlyOnDay(days: Days, lo: int, d: int, hi: int)
    requires lo <= d <= hi && forall k | lo <= k <= hi && k != d :: OnDay(days, k) == []
    ensures Between(days, lo, hi) == OnDay(days, d)
    decreases hi - d
  {
    if d < hi {
      OnlyOnDay(days, lo, d, hi - 1);
    } else {
      BetweenSilent(days, lo, d - 1);
    }
  }

  /** A log whose only message is stamped midnight of day `d`. */
  ghost predicate OnlyMidnight(s: Span, d: int, line: string, c: Clock, m: Message) {
    && s.files.Keys == {d} && FileLines(s.files, d, -1) == [line]
    && c.Valid() && c.Seconds() == 0 && s.q.read(line) == Line(m, c) && s.q.sel(m)
  }

  lemma SelectMidnight(line: string, d: int, start: int, end: int, q: Query, c: Clock, m: Message)
    requires c.Valid() && c.Seconds() == 0 && q.read(line) == Line(m, c) && q.sel(m) && end < DayStart(d) < start
    ensures Select([line], d, start, end, q) == [Entry(DayStart(d), m)]
    ensures Sorted([line], q)
  {
    assert [line][1..] == [];
    assert Select([], d, start, end, q) == [];
  }

  lemma MidnightInside(s: Span, d: int)
    requires DayOf(s.start) < d <= s.Newest()
    ensures s.start < DayStart(d) < s.end && DayOf(DayStart(d)) == d
  {
  }

  /** If that day is after the one the query starts on, the message is wanted and not returned. */
  lemma MidnightMissed(s: Span, d: int, line: string, c: Clock, m: Message, limit: nat)
    requires OnlyMidnight(s, d, line, c, m) && DayOf(s.start) < d <= s.Newest() && limit > 0
    ensures FirstN(Between(Wanted(s), DayOf(s.start), s.Newest()), limit) == [Entry(DayStart(d), m)]
    ensures WalkOn(SomeIn(s), DayOf(s.start), s.Newest(), limit, 0) != Ok([Entry(DayStart(d), m)])
  {
    var e, lo, hi := Entry(DayStart(d), m), DayOf(s.start), s.Newest();
    MidnightInside(s, d);
    SelectMidnight(line, d, s.end, s.start, s.q, c, m);
    assert OnDay(Wanted(s), d) == Select([line], d, s.end, s.start, s.q);
    OnlyOnDay(Wanted(s), lo, d, hi);
    assert AtMidnight(s, e) && e in [e];
    LoadAfterTimeIff(s, limit);
  }
}
