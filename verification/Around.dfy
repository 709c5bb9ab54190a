/**
 CHATHISTORY AROUND: two loads from the store, one backwards from a point in time and one forwards from the
 last message of the first, are to make one window of the log around that point.
 */
module Around {
  import opened Text
  import opened Ring

  /** A stored message and its time in nanoseconds. */
  datatype Entry = Entry(time: int, text: string)

  type Log = seq<Entry>

  ghost predicate Sorted(log: Log) {
    forall i, j | 0 <= i <= j < |log| :: log[i].time <= log[j].time
  }

  // ----- The store contract -----

  /** Messages between two times, both excluded, oldest first; without a lower bound all that are earlier. */
  function Inside(log: Log, after: Option<int>, before: int): Log {
    if log == [] then []
    else
      var init, e := Inside(log[..|log| - 1], after, before), log[|log| - 1];
      if e.time < before && Later(after, e.time) then init + [e] else init
  }

  predicate Later(after: Option<int>, time: int) {
    after.None? || after.value < time
  }

  function LoadBeforeTime(log: Log, start: int, end: Option<int>, limit: nat): Log {
    LastN(Inside(log, end, start), limit)
  }

  function LoadAfterTime(log: Log, start: int, end: int, limit: nat): Log {
    FirstN(Inside(log, Some(start), end), limit)
  }

  // ----- Two loads -----

  const MILLISECOND := 1_000_000
  const SECOND := 1_000_000_000

  /** What is left of a time after printing it with milliseconds and reading it back. */
  function Printed(time: int): int {
    time - time % MILLISECOND
  }

  datatype Reply = History(log: Log) | Failure

  /** Whether the first load succeeds, and a second one. */
  datatype Luck = Luck(first: bool, second: bool)

  /** Two loads that succeed, of up to so many messages back and on. */
  function Loaded(log: Log, bound: int, now: int, back: nat, on: nat): Log {
    var before := LoadBeforeTime(log, bound, None, back);
    var afterBound := if |before| > 0 then Printed(before[|before| - 1].time) else bound - SECOND;
    before + LoadAfterTime(log, afterBound, now, on)
  }

  // ----- The command -----

  /** The subcommands that load messages; LATEST may have no bound. */
  datatype Subcommand = Before | Latest(bounded: bool) | After | Around | Between

  /** What a subcommand ought to answer: a failure if a load it makes fails, and what it loads otherwise. */
  function Promised(sub: Subcommand, log: Log, b0: int, b1: int, now: int, limit: nat, luck: Luck): Reply {
    if !luck.first || (sub.Around? && !luck.second) then Failure
    else
      match sub
      case Before => History(LoadBeforeTime(log, b0, None, limit))
      case Latest(bounded) => History(LoadBeforeTime(log, now, if bounded then Some(b0) else None, limit))
      case After => History(LoadAfterTime(log, b0, now, limit))
      case Around => History(Loaded(log, b0, now, limit - limit / 2, limit / 2))
      case Between =>
        History(if b0 < b1 then LoadAfterTime(log, b0, b1, limit) else LoadBeforeTime(log, b0, Some(b1), limit))
  }

  /** The store's two loads, which return nothing along with an error. */
  method StoreBefore(log: Log, start: int, end: Option<int>, limit: nat, lucky: bool) returns (r: Log, err: bool)
    ensures err == !lucky && r == if lucky then LoadBeforeTime(log, start, end, limit) else []
  {
    r, err := if lucky then LoadBeforeTime(log, start, end, limit) else [], !lucky;
  }

  method StoreAfter(log: Log, start: int, end: int, limit: nat, lucky: bool) returns (r: Log, err: bool)
    ensures err == !lucky && r == if lucky then LoadAfterTime(log, start, end, limit) else []
  {
    r, err := if lucky then LoadAfterTime(log, start, end, limit) else [], !lucky;
  }

  /**
   The part of the CHATHISTORY handler that loads. `err` is looked at behind the switch; the AROUND case has a variable
   of that name of its own (here `inner`), leaves the switch when it is set, and never sets the other one.
   */
  method ChatHistory(sub: Subcommand, log: Log, b0: int, b1: int, now: int, limit: nat, luck: Luck)
    returns (reply: Reply)
    ensures !sub.Around? ==> reply == Promised(sub, log, b0, b1, now, limit, luck)
    ensures sub.Around? ==>
      (reply == Promised(sub, log, b0, b1, now, limit, luck) <==> luck.first && luck.second)
    ensures sub.Around? ==> reply.History?
    ensures sub.Around? && !(luck.first && luck.second) ==> reply.log == []
  {
    var history: Log, err := [], false;
    match sub {
      case Before =>
        history, err := StoreBefore(log, b0, None, limit, luck.first);
      case Latest(bounded) =>
        history, err := StoreBefore(log, now, if bounded then Some(b0) else None, limit, luck.first);
      case After =>
        history, err := StoreAfter(log, b0, now, limit, luck.first);
      case Around =>
        label Switch: {
          var afterLimit := limit / 2;
          var beforeLimit := limit - afterLimit;
          var before, inner := StoreBefore(log, b0, None, beforeLimit, luck.first);
          if inner {
            break Switch;
          }
          var afterBound := if |before| > 0 then Printed(before[|before| - 1].time) else b0 - SECOND;
          var after;
          after, inner := StoreAfter(log, afterBound, now, afterLimit, luck.second);
          if inner {
            break Switch;
          }
          history := before + after;
        }
      case Between =>
        if b0 < b1 {
          history, err := StoreAfter(log, b0, b1, limit, luck.first);
        } else {
          history, err := StoreBefore(log, b0, Some(b1), limit, luck.first);
        }
    }
    if err {
      return Failure;
    }
    return History(history);
  }

  // ----- The window -----

  /** What AROUND answers if nothing fails. */
  function Answer(log: Log, bound: int, now: int, limit: nat): Log {
    Promised(Around, log, bound, bound, now, limit, Luck(true, true)).log
  }

  /** How many messages of a sorted log are earlier than a time. */
  function Below(log: Log, time: int): (n: nat)
    ensures n <= |log|
  {
    if log == [] then 0
    else if log[|log| - 1].time < time then |log|
    else Below(log[..|log| - 1], time)
  }

  function Min(a: nat, b: nat): nat {
    if a < b then a else b
  }

  /** The piece of the log around a point in time, so many messages back and on, as far as there are any. */
  function Span(log: Log, bound: int, now: int, back: nat, on: nat): Log {
    var p := Below(log, bound);
    log[p - Min(p, back)..p + Ahead(log, p, now, on)]
  }

  /** The window: the larger half of the limit back and the smaller half on. */
  function Window(log: Log, bound: int, now: int, limit: nat): Log {
    Span(log, bound, now, limit - limit / 2, limit / 2)
  }

  /** How many messages from a position on are earlier than now, up to a limit. */
  function Ahead(log: Log, p: nat, now: int, limit: nat): (n: nat)
    requires p <= |log|
    ensures p + n <= |log|
  {
    var q := Below(log, now);
    if q > p then Min(q - p, limit) else 0
  }

  lemma {:induction false} BelowSplits(log: Log, time: int)
    requires Sorted(log)
    ensures forall i | 0 <= i < |log| :: log[i].time < time <==> i < Below(log, time)
  {
    if log != [] && log[|log| - 1].time >= time {
      var init := log[..|log| - 1];
      assert forall i | 0 <= i < |init| :: init[i] == log[i];
      BelowSplits(init, time);
    }
  }

  /** Which messages of a log are inside, by position. */
  ghost predicate Cut(log: Log, after: Option<int>, before: int, lo: nat, hi: nat) {
    && lo <= |log| && hi <= |log|
    && forall i | 0 <= i < |log| :: (log[i].time < before <==> i < hi) && (Later(after, log[i].time) <==> i >= lo)
  }

  function Slice(log: Log, lo: nat, hi: nat): Log
    requires hi <= |log|
  {
    if lo <= hi then log[lo..hi] else []
  }

  lemma CutInit(log: Log, after: Option<int>, before: int, lo: nat, hi: nat)
    requires log != [] && Cut(log, after, before, lo, hi)
    ensures Cut(log[..|log| - 1], after, before, Min(lo, |log| - 1), Min(hi, |log| - 1))
  {
    var init := log[..|log| - 1];
    assert forall i | 0 <= i < |init| :: init[i] == log[i];
  }

  lemma SliceInit(log: Log, lo: nat, hi: nat)
    requires log != [] && lo <= |log| && hi <= |log|
    ensures var n := |log| - 1;
            var rest := Slice(log[..n], Min(lo, n), Min(hi, n));
            Slice(log, lo, hi) == if lo <= n < hi then rest + [log[n]] else rest
  {
    var n := |log| - 1;
    if lo <= n < hi {
      assert log[lo..hi] == log[..n][lo..n] + [log[n]];
    } else if lo <= hi <= n {
      assert log[lo..hi] == log[..n][lo..hi];
    }
  }

  /** A sorted log between two times is one piece of it. */
  lemma {:induction false} InsideSlice(log: Log, after: Option<int>, before: int, lo: nat, hi: nat)
    requires Cut(log, after, before, lo, hi)
    ensures Inside(log, after, before) == Slice(log, lo, hi)
  {
    if log != [] {
      var n := |log| - 1;
      CutInit(log, after, before, lo, hi);
      InsideSlice(log[..n], after, before, Min(lo, n), Min(hi, n));
      SliceInit(log, lo, hi);
    }
  }

  lemma BeforeSlice(log: Log, bound: int, limit: nat)
    requires Sorted(log)
    ensures var p := Below(log, bound);
            LoadBeforeTime(log, bound, None, limit) == log[p - Min(p, limit)..p]
  {
    var p := Below(log, bound);
    BelowSplits(log, bound);
    InsideSlice(log, None, bound, 0, p);
    assert log[0..p] == log[..p];
  }

  lemma AfterSlice(log: Log, start: int, lo: nat, now: int, limit: nat)
    requires Sorted(log) && lo <= |log| && forall i | 0 <= i < |log| :: start < log[i].time <==> i >= lo
    ensures LoadAfterTime(log, start, now, limit) == log[lo..lo + Ahead(log, lo, now, limit)]
  {
    BelowSplits(log, now);
    InsideSlice(log, Some(start), now, lo, Below(log, now));
  }

  lemma JoinSlices(log: Log, i: nat, p: nat, j: nat)
    requires i <= p <= j <= |log|
    ensures log[i..p] + log[p..j] == log[i..j]
  {
  }

  /** The last message before the bound, if there is one, has a time that survives printing. */
  ghost predicate PrintsExactly(log: Log, bound: int) {
    var p := Below(log, bound);
    p > 0 ==> Printed(log[p - 1].time) == log[p - 1].time
  }

  /** The time from which the second load starts. */
  function AfterBound(log: Log, bound: int): int {
    var p := Below(log, bound);
    if p > 0 then Printed(log[p - 1].time) else bound - SECOND
  }

  /** What is loaded in terms of positions in the log. */
  lemma LoadedSlices(log: Log, bound: int, now: int, back: nat, on: nat)
    requires Sorted(log) && back > 0
    ensures var p := Below(log, bound);
            Loaded(log, bound, now, back, on) ==
            log[p - Min(p, back)..p] + LoadAfterTime(log, AfterBound(log, bound), now, on)
  {
    BeforeSlice(log, bound, back);
  }

  lemma ExactStart(log: Log, bound: int)
    requires Sorted(log) && PrintsExactly(log, bound)
    ensures forall i | 0 <= i < |log| :: AfterBound(log, bound) < log[i].time <==> i >= Below(log, bound)
  {
    BelowSplits(log, bound);
  }

  lemma ExactTail(log: Log, bound: int, now: int, limit: nat)
    requires Sorted(log) && PrintsExactly(log, bound)
    ensures var p := Below(log, bound);
            LoadAfterTime(log, AfterBound(log, bound), now, limit) == log[p..p + Ahead(log, p, now, limit)]
  {
    ExactStart(log, bound);
    AfterSlice(log, AfterBound(log, bound), Below(log, bound), now, limit);
  }

  lemma ExactSpan(log: Log, bound: int, now: int, back: nat, on: nat)
    requires Sorted(log) && PrintsExactly(log, bound) && back > 0
    ensures Loaded(log, bound, now, back, on) == Span(log, bound, now, back, on)
  {
    var p := Below(log, bound);
    var i, j := p - Min(p, back), p + Ahead(log, p, now, on);
    ExactPieces(log, bound, now, back, on, i, p, j);
    JoinSlices(log, i, p, j);
    assert Span(log, bound, now, back, on) == log[i..j];
  }

  lemma ExactPieces(log: Log, bound: int, now: int, back: nat, on: nat, i: nat, p: nat, j: nat)
    requires Sorted(log) && PrintsExactly(log, bound) && back > 0 && p == Below(log, bound)
    requires i == p - Min(p, back) && j == p + Ahead(log, p, now, on)
    ensures Loaded(log, bound, now, back, on) == log[i..p] + log[p..j]
  {
    LoadedSlices(log, bound, now, back, on);
    ExactTail(log, bound, now, on);
  }

  /** Otherwise the second load starts at a message of the first. */
  lemma EarlyTail(log: Log, bound: int, now: int, limit: nat) returns (r: nat)
    requires Sorted(log) && !PrintsExactly(log, bound)
    ensures r < Below(log, bound) && forall i | 0 <= i < |log| :: AfterBound(log, bound) < log[i].time <==> i >= r
    ensures LoadAfterTime(log, AfterBound(log, bound), now, limit) == log[r..r + Ahead(log, r, now, limit)]
  {
    var start := AfterBound(log, bound);
    r := Below(log, start + 1);
    BelowSplits(log, start + 1);
    AfterSlice(log, start, r, now, limit);
  }

  /** No message that is before the bound is loaded a second time. */
  ghost predicate NoneAgain(log: Log, bound: int, now: int) {
    forall e <- log :: !(AfterBound(log, bound) < e.time < bound && e.time < now)
  }

  /** The first message of the second load, if that starts early, is one of them unless none is before now. */
  lemma AgainIff(log: Log, bound: int, now: int, r: nat)
    requires Sorted(log) && !PrintsExactly(log, bound) && r < Below(log, bound)
    requires forall i | 0 <= i < |log| :: AfterBound(log, bound) < log[i].time <==> i >= r
    ensures NoneAgain(log, bound, now) <==> Below(log, now) <= r
  {
    BelowSplits(log, bound);
    BelowSplits(log, now);
    if Below(log, now) > r {
      assert log[r] in log && AfterBound(log, bound) < log[r].time < bound && log[r].time < now;
    } else {
      forall e | e in log ensures !(AfterBound(log, bound) < e.time < bound && e.time < now) {
        var i :| 0 <= i < |log| && log[i] == e;
      }
    }
  }

  /** If the last message before the bound prints inexactly, the window comes out exactly if none is loaded again. */
  lemma InexactSpanIff(log: Log, bound: int, now: int, back: nat, on: nat)
    requires Sorted(log) && !PrintsExactly(log, bound) && back > 0 && on > 0
    ensures Loaded(log, bound, now, back, on) == Span(log, bound, now, back, on) <==> NoneAgain(log, bound, now)
  {
    var p := Below(log, bound);
    LoadedSlices(log, bound, now, back, on);
    var r := EarlyTail(log, bound, now, on);
    AgainIff(log, bound, now, r);
    EarlyDiffers(log, bound, p - Min(p, back), p, r, Ahead(log, r, now, on), Ahead(log, p, now, on));
  }

  /** Going on from an earlier message makes a difference exactly if there is something to go on with. */
  lemma EarlyDiffers(log: Log, bound: int, i: nat, p: nat, r: nat, x: nat, y: nat)
    requires Sorted(log) && p == Below(log, bound) && i <= p && r < p && r + x <= |log| && p + y <= |log|
    requires x == 0 ==> y == 0
    ensures log[i..p] + log[r..r + x] == log[i..p + y] <==> x == 0
  {
    BelowSplits(log, bound);
    if x > 0 {
      DifferentSlices(log, i, p, r, x, y, bound);
    } else {
      assert log[i..p] + [] == log[i..p];
    }
  }

  lemma ExactNoneAgain(log: Log, bound: int, now: int)
    requires Sorted(log) && PrintsExactly(log, bound)
    ensures NoneAgain(log, bound, now)
  {
    BelowSplits(log, bound);
    ExactStart(log, bound);
    forall e | e in log ensures !(AfterBound(log, bound) < e.time < bound && e.time < now) {
      var i :| 0 <= i < |log| && log[i] == e;
    }
  }

  lemma BackOnly(log: Log, bound: int, now: int, back: nat)
    requires Sorted(log)
    ensures Loaded(log, bound, now, back, 0) == Span(log, bound, now, back, 0)
  {
    BeforeSlice(log, bound, back);
  }

  lemma LoadedIff(log: Log, bound: int, now: int, back: nat, on: nat)
    requires Sorted(log) && on <= back
    ensures Loaded(log, bound, now, back, on) == Span(log, bound, now, back, on) <==>
            on == 0 || NoneAgain(log, bound, now)
  {
    if on == 0 {
      BackOnly(log, bound, now, back);
    } else if PrintsExactly(log, bound) {
      ExactSpan(log, bound, now, back, on);
      ExactNoneAgain(log, bound, now);
    } else {
      InexactSpanIff(log, bound, now, back, on);
    }
  }

  /** Going on from an earlier message is not the same as going on from here. */
  lemma DifferentSlices(log: Log, i: nat, p: nat, r: nat, x: nat, y: nat, bound: int)
    requires i <= p <= |log| && r < p && 0 < x && r + x <= |log| && p + y <= |log|
    requires forall k | 0 <= k < |log| :: log[k].time < bound <==> k < p
    ensures log[i..p] + log[r..r + x] != log[i..p + y]
  {
    var a, b := log[i..p] + log[r..r + x], log[i..p + y];
    assert a[p - i] == log[r];
    if y > 0 {
      assert b[p - i] == log[p];
    }
  }

  /**
   The reply is the window exactly if nothing is to be loaded from the point in time on, or no message before it is
   stamped after the printed time of the last one: whole milliseconds are enough.
   */
  lemma AroundIff(log: Log, bound: int, now: int, limit: nat)
    requires Sorted(log)
    ensures Answer(log, bound, now, limit) == Window(log, bound, now, limit) <==>
            limit < 2 || NoneAgain(log, bound, now)
  {
    LoadedIff(log, bound, now, limit - limit / 2, limit / 2);
  }

  lemma InsideOne(e: Entry, after: Option<int>, before: int)
    requires e.time < before && Later(after, e.time)
    ensures Inside([e], after, before) == [e]
  {
    var init: Log := [e][..0];
    assert init == [] && Inside(init, after, before) == [];
    assert [] + [e] == [e];
  }

  lemma BelowOne(e: Entry, time: int)
    requires e.time < time
    ensures Below([e], time) == 1
  {
  }

  lemma WindowOne(e: Entry, bound: int, now: int)
    requires e.time < bound && e.time < now
    ensures Window([e], bound, now, 2) == [e]
  {
    BelowOne(e, bound);
    BelowOne(e, now);
    assert [e][0..1] == [e];
  }

  /** A message stamped between two milliseconds is answered twice if it is the last one before the point in time. */
  lemma AroundRepeats(e: Entry, bound: int, now: int)
    requires Printed(e.time) != e.time && e.time < bound && e.time < now
    ensures Sorted([e]) && Window([e], bound, now, 2) == [e] && Answer([e], bound, now, 2) == [e, e]
  {
    WindowOne(e, bound, now);
    InsideOne(e, None, bound);
    InsideOne(e, Some(Printed(e.time)), now);
    assert Answer([e], bound, now, 2) == Loaded([e], bound, now, 1, 1);
    assert [e] + [e] == [e, e];
  }

  lemma SpanLength(log: Log, bound: int, now: int, back: nat, on: nat)
    ensures |Span(log, bound, now, back, on)| <= back + on
  {
  }

  lemma WholePrints(log: Log, bound: int)
    requires forall e <- log :: e.time % MILLISECOND == 0
    ensures PrintsExactly(log, bound)
  {
    var p := Below(log, bound);
    if p > 0 {
      assert log[p - 1] in log;
    }
  }

  /** A store that keeps whole milliseconds is always answered from with the window, of no more than the limit. */
  lemma AroundWhole(log: Log, bound: int, now: int, limit: nat)
    requires Sorted(log) && forall e <- log :: e.time % MILLISECOND == 0
    ensures Answer(log, bound, now, limit) == Window(log, bound, now, limit)
    ensures |Window(log, bound, now, limit)| <= limit
  {
    WholePrints(log, bound);
    ExactNoneAgain(log, bound, now);
    AroundIff(log, bound, now, limit);
    SpanLength(log, bound, now, limit - limit / 2, limit / 2);
  }
}
