/**
 What the on-disk store loads behind a cursor. Byte offsets, line skipping and the walk over days together find a
 message exactly if its day's file is read that far. Messages may be stamped on any day and in any order.
 */
module FsLoads {
  import opened Text
  import opened ZncLog
  import opened Ring
  import opened Positions
  import opened FsStore
  import opened FsCursors

  /** The backlog query: PRIVMSG and NOTICE messages, all of them. */
  function BacklogQuery(entity: string, me: string): Query {
    Query((line: string) => UnmarshalLine(line, entity, me, false), (_: Message) => true)
  }

  /** What a message is loaded as. */
  function EntryOf(entity: string, me: string): Rec -> Entry {
    (r: Rec) => Entry(At(r.day, r.clock), Normal(r.msg, entity, me))
  }

  /** PRIVMSG and NOTICE messages, and not events. */
  function Talk(): Rec -> bool {
    (r: Rec) => !IsEvent(r.msg)
  }

  /** One of those stamped at or after now, as a server with a fast clock makes it. */
  function Ahead(now: int): Rec -> bool {
    (r: Rec) => !IsEvent(r.msg) && At(r.day, r.clock) >= now
  }

  function Shows(log: seq<Rec>, entry: Rec -> Entry): nat -> Entry {
    (i: nat) => if i < |log| then entry(log[i]) else Entry(0, Message(Prefix("", "", ""), "", []))
  }

  // ----- One day -----

  /** No line of the day from `from` up to `i` is stamped at or after now. */
  predicate Clear(log: seq<Rec>, ahead: Rec -> bool, d: int, from: nat, i: nat) {
    forall j | from <= j <= i && j < |log| && log[j].day == d :: !ahead(log[j])
  }

  /** The messages that are read on a day, from a position in the log on. */
  function ReadOn(log: seq<Rec>, d: int, from: nat, talk: Rec -> bool, ahead: Rec -> bool): nat -> bool {
    (i: nat) => from <= i < |log| && log[i].day == d && talk(log[i]) && Clear(log, ahead, d, from, i)
  }

  /** What the scan does with the line of a message. */
  predicate Judged(r: Rec, ref: int, end: int, q: Query, entry: Rec -> Entry, talk: Rec -> bool, ahead: Rec -> bool) {
    Judge(r.text, r.day, ref, end, q) == if ahead(r) then Stop else if talk(r) then Take(entry(r)) else Skip
  }

  lemma StampedWithin(r: Rec, now: int)
    requires r.clock.Valid() && r.day > ZERO_DAY && r.day <= DayOf(now)
    ensures DayStart(ZERO_DAY) < At(r.day, r.clock)
    ensures At(r.day, r.clock) < now <==> At(r.day, r.clock) < UpTo(r.day, now)
  {
  }

  lemma GenuineJudged(r: Rec, now: int, entity: string, me: string)
    requires Genuine(r) && r.day > ZERO_DAY && r.day <= DayOf(now)
    ensures Judged(r, UpTo(r.day, now), DayStart(ZERO_DAY), BacklogQuery(entity, me), EntryOf(entity, me), Talk(),
                   Ahead(now))
  {
    StampedWithin(r, now);
    EventsSkipped(r.msg, r.clock, entity, me);
  }

  lemma AheadIsLate(r: Rec, now: int)
    requires r.clock.Valid()
    ensures At(r.day, r.clock) >= now ==> r.day >= DayOf(now)
    ensures At(r.day, r.clock) < now ==> r.day <= DayOf(now)
  {
  }

  lemma DayLinesNext(log: seq<Rec>, k: nat, d: int)
    requires k < |log|
    ensures DayLines(log[k..], d) == (if log[k].day == d then [log[k].text] else []) + DayLines(log[k + 1..], d)
  {
    assert log[k..][0] == log[k] && log[k..][1..] == log[k + 1..];
  }

  /** What one more line adds to what the scan of the lines after it finds. */
  lemma ScanNext(r: Rec, lines: seq<string>, rest: seq<Entry>, ref: int, end: int, q: Query, entry: Rec -> Entry,
                 talk: Rec -> bool, ahead: Rec -> bool)
    requires Judged(r, ref, end, q, entry, talk, ahead)
    requires !ahead(r) ==> ScanDay(lines, r.day, ref, end, q) == Ok(rest)
    ensures ScanDay([r.text] + lines, r.day, ref, end, q) ==
            Ok(if ahead(r) then [] else (if talk(r) then [entry(r)] else []) + rest)
  {
    assert ([r.text] + lines)[1..] == lines && ([r.text] + lines)[0] == r.text;
    assert [] + rest == rest;
  }

  /** The scan of a day from some line on finds the messages that are read, in order. */
  lemma {:induction false} ScanFinds(log: seq<Rec>, d: int, from: nat, k: nat, ref: int, end: int, q: Query,
                                     entry: Rec -> Entry, talk: Rec -> bool, ahead: Rec -> bool)
    requires from <= k <= |log| && (k > from ==> Clear(log, ahead, d, from, k - 1))
    requires forall i | k <= i < |log| && log[i].day == d :: Judged(log[i], ref, end, q, entry, talk, ahead)
    ensures ScanDay(DayLines(log[k..], d), d, ref, end, q) ==
            Ok(Map(Shows(log, entry), Where(ReadOn(log, d, from, talk, ahead), k, |log|)))
    decreases |log| - k
  {
    if k < |log| {
      DayLinesNext(log, k, d);
      var r, lines := log[k], DayLines(log[k + 1..], d);
      if r.day != d {
        ScanFinds(log, d, from, k + 1, ref, end, q, entry, talk, ahead);
        NotThatDay(log, d, from, k, talk, ahead);
        assert [] + lines == lines;
      } else if ahead(r) {
        ScanNext(r, lines, [], ref, end, q, entry, talk, ahead);
        NothingBehind(log, d, from, k, entry, talk, ahead);
      } else {
        ScanFinds(log, d, from, k + 1, ref, end, q, entry, talk, ahead);
        ScanNext(r, lines, Map(Shows(log, entry), Where(ReadOn(log, d, from, talk, ahead), k + 1, |log|)),
                 ref, end, q, entry, talk, ahead);
        ReadHere(log, d, from, k, entry, talk, ahead);
      }
    } else {
      assert log[k..] == [] && Map(Shows(log, entry), []) == [];
    }
  }

  lemma NotThatDay(log: seq<Rec>, d: int, from: nat, k: nat, talk: Rec -> bool, ahead: Rec -> bool)
    requires k < |log| && log[k].day != d
    ensures var taken := ReadOn(log, d, from, talk, ahead); Where(taken, k, |log|) == Where(taken, k + 1, |log|)
  {
    var rest := Where(ReadOn(log, d, from, talk, ahead), k + 1, |log|);
    assert [] + rest == rest;
  }

  lemma NothingBehind(log: seq<Rec>, d: int, from: nat, k: nat, entry: Rec -> Entry, talk: Rec -> bool,
                      ahead: Rec -> bool)
    requires from <= k < |log| && log[k].day == d && ahead(log[k])
    ensures Map(Shows(log, entry), Where(ReadOn(log, d, from, talk, ahead), k, |log|)) == []
  {
    var taken := ReadOn(log, d, from, talk, ahead);
    forall i: nat | k <= i < |log| ensures !taken(i) {
      assert from <= k <= i;
    }
    WhereNone(taken, k, |log|);
  }

  lemma ReadHere(log: seq<Rec>, d: int, from: nat, k: nat, entry: Rec -> Entry, talk: Rec -> bool, ahead: Rec -> bool)
    requires from <= k < |log| && log[k].day == d && Clear(log, ahead, d, from, k)
    ensures var taken, shows := ReadOn(log, d, from, talk, ahead), Shows(log, entry);
            Map(shows, Where(taken, k, |log|)) ==
            (if talk(log[k]) then [entry(log[k])] else []) + Map(shows, Where(taken, k + 1, |log|))
  {
    var taken, shows := ReadOn(log, d, from, talk, ahead), Shows(log, entry);
    var here := if talk(log[k]) then [k] else [];
    assert taken(k) == talk(log[k]);
    assert Where(taken, k, |log|) == here + Where(taken, k + 1, |log|);
    MapConcat(shows, here, Where(taken, k + 1, |log|));
    assert Map(shows, here) == if talk(log[k]) then [entry(log[k])] else [];
  }

  // ----- The lines behind a cursor -----

  /** The file of a day, around the last line before the first `p` messages end. */
  lemma DayText(files: Files, log: seq<Rec>, d: int, p: nat, before: seq<string>, l: string)
    requires Stored(files, log) && p <= |log| && DayLines(log[..p], d) == before + [l]
    ensures FileText(files, d) == Unlines(before) + (l + "\n" + Unlines(DayLines(log[p..], d)))
  {
    assert log == log[..p] + log[p..];
    DayLinesConcat(log[..p], log[p..], d);
    UnlinesAround(before, l, DayLines(log[p..], d));
  }

  /** The line a cursor points into. */
  lemma PointedLine(log: seq<Rec>, id: Cursor, p: nat) returns (before: seq<string>, l: string, j: nat)
    requires Plain(log) && PointsAt(log, id, p) && id.offset >= 0
    ensures DayLines(log[..p], id.day) == before + [l] && Free(l, '\n') && j <= |l| &&
            id.offset == |Unlines(before)| + j
  {
    DayLinesPlain(log[..p], id.day);
    var x, y, z: nat :| InLine(DayLines(log[..p], id.day), x, y, z, id.offset);
    before, l, j := x, y, z;
    assert (before + [l])[|before|] == l;
    assert l in DayLines(log[..p], id.day);
  }

  /** On the cursor's own day, the lines read are those after the one it points into. */
  lemma LinesSincePointed(files: Files, log: seq<Rec>, id: Cursor, p: nat)
    requires Stored(files, log) && PointsAt(log, id, p) && id.offset >= 0
    ensures LinesAfter(FileText(files, id.day), id.offset) == DayLines(log[p..], id.day)
  {
    var before, l, j := PointedLine(log, id, p);
    DayText(files, log, id.day, p, before, l);
    DayLinesPlain(log[p..], id.day);
    LinesAt(FileText(files, id.day), before, l, DayLines(log[p..], id.day), j, id.offset);
  }

  lemma LinesAt(text: string, before: seq<string>, l: string, after: seq<string>, j: nat, offset: int)
    requires text == Unlines(before) + (l + "\n" + Unlines(after)) && PlainLines(after) && Free(l, '\n') && j <= |l|
    requires offset == |Unlines(before)| + j
    ensures LinesAfter(text, offset) == after
  {
    LinesBehind(text, Unlines(before), l, after, j);
  }

  /** Where in the log the reading of a day starts: behind the cursor on its own day, and at the front on any later. */
  function From(id: Cursor, p: nat, d: int): nat {
    if d == id.day then p else 0
  }

  lemma WholeFile(files: Files, log: seq<Rec>, d: int)
    requires Stored(files, log)
    ensures Lines(FileText(files, d)) == DayLines(log, d)
  {
    DayLinesPlain(log, d);
    LinesUnlines(DayLines(log, d));
  }

  lemma LinesRead(files: Files, log: seq<Rec>, id: Cursor, p: nat, d: int)
    requires Stored(files, log) && PointsAt(log, id, p)
    ensures FileLines(files, d, OffsetAt(Some(id), d)) == DayLines(log[From(id, p, d)..], d)
  {
    if d == id.day && id.offset >= 0 {
      LinesSincePointed(files, log, id, p);
    } else {
      WholeFile(files, log, d);
      if d == id.day {
        assert log == log[..p] + log[p..];
        DayLinesConcat(log[..p], log[p..], d);
        assert [] + DayLines(log[p..], d) == DayLines(log[p..], d);
      } else {
        assert log[0..] == log;
      }
    }
  }

  // ----- All days -----

  /** Lines of well-formed messages, stamped after the zero instant. */
  ghost predicate Sound(log: seq<Rec>) {
    forall i | 0 <= i < |log| :: Genuine(log[i]) && log[i].day > ZERO_DAY
  }

  /** What is read on a day, as positions in the log. */
  function Reads(log: seq<Rec>, id: Cursor, p: nat, now: int, d: int): seq<nat> {
    Where(ReadOn(log, d, From(id, p, d), Talk(), Ahead(now)), From(id, p, d), |log|)
  }

  /** The same over several days. */
  function Across(log: seq<Rec>, id: Cursor, p: nat, now: int, lo: int, hi: int): seq<nat>
    decreases hi - lo
  {
    if hi < lo then [] else Across(log, id, p, now, lo, hi - 1) + Reads(log, id, p, now, hi)
  }

  lemma DayRead(files: Files, log: seq<Rec>, id: Cursor, p: nat, now: int, entity: string, me: string, d: int)
    requires Stored(files, log) && PointsAt(log, id, p) && Sound(log) && id.day <= d <= DayOf(now)
    ensures LatestDays(files, Some(id), now, BacklogQuery(entity, me))(d) ==
            Ok(Map(Shows(log, EntryOf(entity, me)), Reads(log, id, p, now, d)))
  {
    var q, entry, end := BacklogQuery(entity, me), EntryOf(entity, me), DayStart(ZERO_DAY);
    var from := From(id, p, d);
    LinesRead(files, log, id, p, d);
    forall i | from <= i < |log| && log[i].day == d
      ensures Judged(log[i], UpTo(d, now), end, q, entry, Talk(), Ahead(now))
    {
      GenuineJudged(log[i], now, entity, me);
    }
    ScanFinds(log, d, from, from, UpTo(d, now), end, q, entry, Talk(), Ahead(now));
  }

  /** What a load from a cursor returns. */
  function Load(files: Files, id: Cursor, now: int, entity: string, me: string, limit: nat): Result<seq<Entry>> {
    Walk(LatestDays(files, Some(id), now, BacklogQuery(entity, me)), FirstDay(Some(id)), DayOf(now), limit, 0)
  }

  /** Days whose messages are those at the positions that are read. */
  ghost predicate ReadAs(days: Days, shows: nat -> Entry, log: seq<Rec>, id: Cursor, p: nat, now: int) {
    forall d | id.day <= d <= DayOf(now) :: days(d) == Ok(Map(shows, Reads(log, id, p, now, d)))
  }

  lemma {:induction false} BetweenAcross(days: Days, shows: nat -> Entry, log: seq<Rec>, id: Cursor, p: nat, now: int,
                                         lo: int, hi: int)
    requires ReadAs(days, shows, log, id, p, now) && id.day <= lo && hi <= DayOf(now)
    ensures Between(days, lo, hi) == Map(shows, Across(log, id, p, now, lo, hi))
    decreases hi - lo
  {
    if lo <= hi {
      BetweenAcross(days, shows, log, id, p, now, lo, hi - 1);
      MapConcat(shows, Across(log, id, p, now, lo, hi - 1), Reads(log, id, p, now, hi));
    }
  }

  /** A silence of MAX_TRIES days up to `k`, with fewer than `limit` messages read after it. */
  ghost predicate Quiet(log: seq<Rec>, id: Cursor, p: nat, now: int, limit: nat, k: int) {
    && (forall d | k - MAX_TRIES < d <= k :: Reads(log, id, p, now, d) == [])
    && |Across(log, id, p, now, k + 1, DayOf(now))| < limit
  }

  /** There is such a silence after day `d`. */
  ghost predicate QuietSince(log: seq<Rec>, id: Cursor, p: nat, now: int, limit: nat, d: int) {
    exists k | d + MAX_TRIES <= k <= DayOf(now) :: Quiet(log, id, p, now, limit, k)
  }

  lemma GapIff(days: Days, shows: nat -> Entry, log: seq<Rec>, id: Cursor, p: nat, now: int, limit: nat, k: int)
    requires ReadAs(days, shows, log, id, p, now) && id.day <= k - MAX_TRIES && k <= DayOf(now)
    ensures Gap(days, DayOf(now), limit, k) <==> Quiet(log, id, p, now, limit, k)
  {
    BetweenAcross(days, shows, log, id, p, now, k + 1, DayOf(now));
    forall d | k - MAX_TRIES < d <= k ensures OnDay(days, d) == [] <==> Reads(log, id, p, now, d) == [] {
      assert days(d) == Ok(Map(shows, Reads(log, id, p, now, d)));
    }
  }

  // ----- What is loaded -----

  /** The messages read after position `i` of a day, on that day and later. */
  function After(log: seq<Rec>, id: Cursor, p: nat, now: int, i: nat): seq<nat>
    requires i < |log|
  {
    var d := log[i].day;
    Where(ReadOn(log, d, From(id, p, d), Talk(), Ahead(now)), i + 1, |log|) + Across(log, id, p, now, d + 1, DayOf(now))
  }

  /** The message is in a part of a file that is read. */
  predicate IsRead(log: seq<Rec>, id: Cursor, p: nat, now: int, i: nat) {
    i < |log| && log[i].day >= id.day && ReadOn(log, log[i].day, From(id, p, log[i].day), Talk(), Ahead(now))(i)
  }

  /**
   A load from a cursor returns the message exactly if: it is a PRIVMSG or NOTICE; it is on the day of the cursor and
   behind it, or on a later day; neither it nor a line before it that is read from the same file is stamped at or after
   now; no long silence comes after it before `limit` messages do; and fewer than `limit` messages come after it.
   */
  ghost predicate Loads(log: seq<Rec>, id: Cursor, p: nat, now: int, limit: nat, i: nat) {
    && IsRead(log, id, p, now, i)
    && !QuietSince(log, id, p, now, limit, log[i].day)
    && |After(log, id, p, now, i)| < limit
  }

  /** Nothing that is stamped for a day to come is read. */
  lemma ReadByToday(log: seq<Rec>, id: Cursor, p: nat, now: int, i: nat)
    requires Sound(log) && IsRead(log, id, p, now, i)
    ensures log[i].day <= DayOf(now)
  {
    assert !Ahead(now)(log[i]);
    AheadIsLate(log[i], now);
  }

  lemma ReadsIff(log: seq<Rec>, id: Cursor, p: nat, now: int, d: int, i: nat)
    requires d >= id.day
    ensures i in Reads(log, id, p, now, d) <==> IsRead(log, id, p, now, i) && log[i].day == d
  {
    WhereIff(ReadOn(log, d, From(id, p, d), Talk(), Ahead(now)), From(id, p, d), |log|, i);
  }

  lemma {:induction false} AcrossIff(log: seq<Rec>, id: Cursor, p: nat, now: int, lo: int, hi: int, i: nat)
    requires lo >= id.day
    ensures i in Across(log, id, p, now, lo, hi) <==> IsRead(log, id, p, now, i) && lo <= log[i].day <= hi
    decreases hi - lo
  {
    if lo <= hi {
      AcrossIff(log, id, p, now, lo, hi - 1, i);
      ReadsIff(log, id, p, now, hi, i);
    }
  }

  lemma {:induction false} AcrossSplit(log: seq<Rec>, id: Cursor, p: nat, now: int, lo: int, d: int, hi: int)
    requires lo <= d <= hi
    ensures Across(log, id, p, now, lo, hi) ==
            Across(log, id, p, now, lo, d - 1) + (Reads(log, id, p, now, d) + Across(log, id, p, now, d + 1, hi))
    decreases hi - d
  {
    if d < hi {
      AcrossSplit(log, id, p, now, lo, d, hi - 1);
      var a, b := Across(log, id, p, now, lo, d - 1), Reads(log, id, p, now, d);
      var c, e := Across(log, id, p, now, d + 1, hi - 1), Reads(log, id, p, now, hi);
      assert a + (b + c) + e == a + (b + (c + e));
    } else {
      assert Across(log, id, p, now, d + 1, hi) == [];
      assert Reads(log, id, p, now, d) + [] == Reads(log, id, p, now, d);
    }
  }

  lemma Regroup(a: seq<nat>, b: seq<nat>, i: nat, c: seq<nat>, d: seq<nat>)
    ensures a + ((b + ([i] + c)) + d) == a + b + ([i] + (c + d))
  {
  }

  /** What is read around one message. */
  lemma AroundRead(log: seq<Rec>, id: Cursor, p: nat, now: int, lo: int, i: nat) returns (before: seq<nat>)
    requires IsRead(log, id, p, now, i) && id.day <= lo <= log[i].day <= DayOf(now)
    ensures Across(log, id, p, now, lo, DayOf(now)) == before + ([i] + After(log, id, p, now, i))
    ensures i !in before && i !in After(log, id, p, now, i)
  {
    var d, hi := log[i].day, DayOf(now);
    var from := From(id, p, d);
    var taken := ReadOn(log, d, from, Talk(), Ahead(now));
    var older, newer := Across(log, id, p, now, lo, d - 1), Across(log, id, p, now, d + 1, hi);
    AcrossSplit(log, id, p, now, lo, d, hi);
    WhereSplit(taken, from, i, |log|);
    before := older + Where(taken, from, i);
    Regroup(older, Where(taken, from, i), i, Where(taken, i + 1, |log|), newer);
    WhereIff(taken, from, i, i);
    WhereIff(taken, i + 1, |log|, i);
    AcrossIff(log, id, p, now, lo, d - 1, i);
    AcrossIff(log, id, p, now, d + 1, hi, i);
    assert i !in older && i !in newer;
  }

  /** One of the last `n` messages that are read from day `lo` on. */
  predicate Among(log: seq<Rec>, id: Cursor, p: nat, now: int, lo: int, n: nat, i: nat) {
    i in LastN(Across(log, id, p, now, lo, DayOf(now)), n)
  }

  /** It is among the last `n` exactly if fewer come after it. */
  lemma ReadAmong(log: seq<Rec>, id: Cursor, p: nat, now: int, lo: int, i: nat, n: nat)
    requires IsRead(log, id, p, now, i) && id.day <= lo <= log[i].day <= DayOf(now)
    ensures Among(log, id, p, now, lo, n, i) <==> |After(log, id, p, now, i)| < n
  {
    var before := AroundRead(log, id, p, now, lo, i);
    LastNMiddle(before, i, After(log, id, p, now, i), n);
  }

  lemma NotAmong(log: seq<Rec>, id: Cursor, p: nat, now: int, lo: int, i: nat, n: nat)
    requires lo >= id.day && !(IsRead(log, id, p, now, i) && lo <= log[i].day)
    ensures !Among(log, id, p, now, lo, n, i)
  {
    AcrossIff(log, id, p, now, lo, DayOf(now), i);
  }

  /** In the order of days, and as they were appended on each. */
  ghost predicate DayOrdered(log: seq<Rec>, ps: seq<nat>) {
    && (forall a | 0 <= a < |ps| :: ps[a] < |log|)
    && forall a, b | 0 <= a < b < |ps| ::
         log[ps[a]].day < log[ps[b]].day || (log[ps[a]].day == log[ps[b]].day && ps[a] < ps[b])
  }

  lemma {:induction false} AcrossOrdered(log: seq<Rec>, id: Cursor, p: nat, now: int, lo: int, hi: int)
    requires lo >= id.day
    ensures DayOrdered(log, Across(log, id, p, now, lo, hi))
    decreases hi - lo
  {
    if lo <= hi {
      var older, newer := Across(log, id, p, now, lo, hi - 1), Reads(log, id, p, now, hi);
      AcrossOrdered(log, id, p, now, lo, hi - 1);
      forall a | 0 <= a < |older| ensures log[older[a]].day < hi {
        AcrossIff(log, id, p, now, lo, hi - 1, older[a]);
        assert older[a] in older;
      }
      forall a | 0 <= a < |newer| ensures newer[a] < |log| && log[newer[a]].day == hi {
        ReadsIff(log, id, p, now, hi, newer[a]);
        assert newer[a] in newer;
      }
      WhereAscends(ReadOn(log, hi, From(id, p, hi), Talk(), Ahead(now)), From(id, p, hi), |log|);
    }
  }

  lemma LastNOrdered(log: seq<Rec>, ps: seq<nat>, n: nat)
    requires DayOrdered(log, ps)
    ensures DayOrdered(log, LastN(ps, n)) && |LastN(ps, n)| <= n && forall i | i in LastN(ps, n) :: i in ps
  {
  }

  /** A silence after a day that the walk does not reach. */
  lemma QuietAfter(days: Days, shows: nat -> Entry, log: seq<Rec>, id: Cursor, p: nat, now: int, limit: nat, stop: int,
                   d: int) returns (k: int)
    requires ReadAs(days, shows, log, id, p, now) && Stops(days, id.day, DayOf(now), limit, stop)
    requires id.day <= d <= stop && d <= DayOf(now) && |Across(log, id, p, now, d + 1, DayOf(now))| < limit
    ensures d + MAX_TRIES <= k <= DayOf(now) && Quiet(log, id, p, now, limit, k)
  {
    var hi := DayOf(now);
    BetweenAcross(days, shows, log, id, p, now, d + 1, hi);
    ReachedIff(days, id.day, hi, limit, stop, d);
    k :| d + MAX_TRIES <= k <= hi && Gap(days, hi, limit, k);
    GapIff(days, shows, log, id, p, now, limit, k);
  }

  /** After a day it does reach there is none. */
  lemma NotQuietAfter(days: Days, shows: nat -> Entry, log: seq<Rec>, id: Cursor, p: nat, now: int, limit: nat,
                      stop: int, d: int, k: int)
    requires ReadAs(days, shows, log, id, p, now) && Stops(days, id.day, DayOf(now), limit, stop)
    requires id.day <= d && stop < d && d + MAX_TRIES <= k <= DayOf(now)
    ensures !Quiet(log, id, p, now, limit, k)
  {
    GapIff(days, shows, log, id, p, now, limit, k);
  }

  /** The walk over the days that are read stops there: what it passes over is behind a silence, and nothing else is. */
  ghost predicate Passes(log: seq<Rec>, id: Cursor, p: nat, now: int, limit: nat, stop: int) {
    && id.day - 1 <= stop
    && (forall d | id.day <= d <= stop && d <= DayOf(now) && |Across(log, id, p, now, d + 1, DayOf(now))| < limit ::
          QuietSince(log, id, p, now, limit, d))
    && (forall d | stop < d && id.day <= d :: !QuietSince(log, id, p, now, limit, d))
  }

  lemma StopsPasses(days: Days, shows: nat -> Entry, log: seq<Rec>, id: Cursor, p: nat, now: int, limit: nat, stop: int)
    requires ReadAs(days, shows, log, id, p, now) && Stops(days, id.day, DayOf(now), limit, stop)
    ensures Passes(log, id, p, now, limit, stop)
  {
    forall d | id.day <= d <= stop && d <= DayOf(now) && |Across(log, id, p, now, d + 1, DayOf(now))| < limit
      ensures QuietSince(log, id, p, now, limit, d)
    {
      var k := QuietAfter(days, shows, log, id, p, now, limit, stop, d);
    }
    forall d | stop < d && id.day <= d
      ensures !QuietSince(log, id, p, now, limit, d)
    {
      if k :| d + MAX_TRIES <= k <= DayOf(now) && Quiet(log, id, p, now, limit, k) {
        NotQuietAfter(days, shows, log, id, p, now, limit, stop, d, k);
      }
    }
  }

  lemma NeitherUnread(log: seq<Rec>, id: Cursor, p: nat, now: int, limit: nat, stop: int, i: nat)
    requires id.day <= stop + 1 && !IsRead(log, id, p, now, i)
    ensures !Among(log, id, p, now, stop + 1, limit, i) && !Loads(log, id, p, now, limit, i)
  {
    NotAmong(log, id, p, now, stop + 1, i, limit);
  }

  lemma NeitherPassed(log: seq<Rec>, id: Cursor, p: nat, now: int, limit: nat, stop: int, i: nat)
    requires Passes(log, id, p, now, limit, stop) && IsRead(log, id, p, now, i) && log[i].day <= DayOf(now)
    requires log[i].day <= stop
    ensures !Among(log, id, p, now, stop + 1, limit, i) && !Loads(log, id, p, now, limit, i)
  {
    NotAmong(log, id, p, now, stop + 1, i, limit);
    AfterDay(log, id, p, now, i);
  }

  lemma BothReached(log: seq<Rec>, id: Cursor, p: nat, now: int, limit: nat, stop: int, i: nat)
    requires Passes(log, id, p, now, limit, stop) && IsRead(log, id, p, now, i) && stop < log[i].day <= DayOf(now)
    ensures Among(log, id, p, now, stop + 1, limit, i) <==> Loads(log, id, p, now, limit, i)
  {
    ReadAmong(log, id, p, now, stop + 1, i, limit);
  }

  /** So the last `limit` of what is read after the walk stops are the messages that load. */
  lemma LastReadIff(log: seq<Rec>, id: Cursor, p: nat, now: int, limit: nat, stop: int, i: nat)
    requires Passes(log, id, p, now, limit, stop) && Sound(log)
    ensures Among(log, id, p, now, stop + 1, limit, i) <==> Loads(log, id, p, now, limit, i)
  {
    if !IsRead(log, id, p, now, i) {
      NeitherUnread(log, id, p, now, limit, stop, i);
    } else {
      ReadByToday(log, id, p, now, i);
      if log[i].day <= stop {
        NeitherPassed(log, id, p, now, limit, stop, i);
      } else {
        BothReached(log, id, p, now, limit, stop, i);
      }
    }
  }

  lemma AfterDay(log: seq<Rec>, id: Cursor, p: nat, now: int, i: nat)
    requires i < |log|
    ensures |After(log, id, p, now, i)| >= |Across(log, id, p, now, log[i].day + 1, DayOf(now))|
  {
  }

  /**
   What a load from a cursor returns, whatever days and times messages are stamped with: the messages that load, day
   by day, and on each day in the order they were appended.
   */
  lemma LoadLatestIDIff(files: Files, log: seq<Rec>, id: Cursor, p: nat, now: int, entity: string, me: string,
                        limit: nat)
    returns (ps: seq<nat>)
    requires Stored(files, log) && PointsAt(log, id, p) && Sound(log)
    ensures Load(files, id, now, entity, me, limit) == Ok(Map(Shows(log, EntryOf(entity, me)), ps))
    ensures DayOrdered(log, ps) && |ps| <= limit && forall i: nat :: i in ps <==> Loads(log, id, p, now, limit, i)
  {
    var days, shows := LatestDays(files, Some(id), now, BacklogQuery(entity, me)), Shows(log, EntryOf(entity, me));
    forall d | id.day <= d <= DayOf(now) ensures days(d) == Ok(Map(shows, Reads(log, id, p, now, d))) {
      DayRead(files, log, id, p, now, entity, me, d);
    }
    if id.day > DayOf(now) {
      ps := [];
      forall i: nat ensures !Loads(log, id, p, now, limit, i) {
        if IsRead(log, id, p, now, i) {
          ReadByToday(log, id, p, now, i);
        }
      }
      assert Map(shows, ps) == [];
    } else {
      var stop := WalkFinds(days, id.day, DayOf(now), limit);
      ps := LoadedBehind(days, shows, log, id, p, now, limit, stop);
    }
  }

  lemma LoadedBehind(days: Days, shows: nat -> Entry, log: seq<Rec>, id: Cursor, p: nat, now: int, limit: nat,
                     stop: int)
    returns (ps: seq<nat>)
    requires ReadAs(days, shows, log, id, p, now) && Stops(days, id.day, DayOf(now), limit, stop) && Sound(log)
    ensures LastN(Between(days, stop + 1, DayOf(now)), limit) == Map(shows, ps)
    ensures DayOrdered(log, ps) && |ps| <= limit && forall i: nat :: i in ps <==> Loads(log, id, p, now, limit, i)
  {
    StopsPasses(days, shows, log, id, p, now, limit, stop);
    var found := Across(log, id, p, now, stop + 1, DayOf(now));
    ps := LastN(found, limit);
    BetweenAcross(days, shows, log, id, p, now, stop + 1, DayOf(now));
    LastNMap(shows, found, limit);
    AcrossOrdered(log, id, p, now, stop + 1, DayOf(now));
    LastNOrdered(log, found, limit);
    forall i: nat ensures i in ps <==> Loads(log, id, p, now, limit, i) {
      LastReadIff(log, id, p, now, limit, stop, i);
    }
  }

  // ----- When exactly the messages behind the cursor are loaded -----

  function Told(log: seq<Rec>): nat -> bool {
    (i: nat) => i < |log| && Talk()(log[i])
  }

  /** The last `limit` PRIVMSG and NOTICE messages behind the cursor. */
  function Wanted(log: seq<Rec>, p: nat, limit: nat): seq<nat> {
    LastN(Where(Told(log), p, |log|), limit)
  }

  /** Behind the cursor, or in a file of a later day. */
  predicate Ranges(log: seq<Rec>, id: Cursor, p: nat, i: nat) {
    i < |log| && Talk()(log[i]) && (p <= i || log[i].day > id.day)
  }

  function Stamp(r: Rec): int {
    At(r.day, r.clock)
  }

  /** These messages are stamped in the order they were appended in. */
  ghost predicate InTime(log: seq<Rec>, id: Cursor, p: nat) {
    forall i: nat, j: nat | i < j && Ranges(log, id, p, i) && Ranges(log, id, p, j) :: Stamp(log[i]) <= Stamp(log[j])
  }

  lemma StampDay(r: Rec)
    requires r.clock.Valid()
    ensures DayOf(Stamp(r)) == r.day
  {
  }

  lemma WantedIff(log: seq<Rec>, p: nat, limit: nat, i: nat)
    ensures i in Wanted(log, p, limit) <==> p <= i && Told(log)(i) && |Where(Told(log), i + 1, |log|)| < limit
    ensures i in Wanted(log, p, limit) ==> i < |log|
  {
    LastWhereIff(Told(log), p, |log|, limit, i);
  }

  lemma WantedAscends(log: seq<Rec>, p: nat, limit: nat)
    ensures Ascending(Wanted(log, p, limit))
  {
    WhereAscends(Told(log), p, |log|);
  }

  /** A later message is wanted if an earlier one behind the cursor is. */
  lemma LaterWanted(log: seq<Rec>, p: nat, limit: nat, i: nat, j: nat)
    requires j in Wanted(log, p, limit) && j < i && Told(log)(i)
    ensures i in Wanted(log, p, limit)
  {
    WantedIff(log, p, limit, i);
    WantedIff(log, p, limit, j);
    WhereLater(Told(log), j + 1, i + 1, |log|);
  }

  lemma LoadsRanges(log: seq<Rec>, id: Cursor, p: nat, now: int, limit: nat, i: nat)
    requires Loads(log, id, p, now, limit, i)
    ensures Ranges(log, id, p, i) && Stamp(log[i]) < now
  {
    assert !Ahead(now)(log[i]);
  }

  /** What loads is in order if the stamps are. */
  lemma LoadedAscends(log: seq<Rec>, id: Cursor, p: nat, now: int, limit: nat, ps: seq<nat>)
    requires Sound(log) && InTime(log, id, p) && DayOrdered(log, ps)
    requires forall i: nat :: i in ps ==> Loads(log, id, p, now, limit, i)
    ensures Ascending(ps)
  {
    forall a, b | 0 <= a < b < |ps| ensures ps[a] < ps[b] {
      assert ps[a] in ps && ps[b] in ps;
      LoadsRanges(log, id, p, now, limit, ps[a]);
      LoadsRanges(log, id, p, now, limit, ps[b]);
      assert Genuine(log[ps[a]]) && Genuine(log[ps[b]]);
      DaysInTime(log, id, p, ps[a], ps[b]);
    }
  }

  lemma DaysInTime(log: seq<Rec>, id: Cursor, p: nat, i: nat, j: nat)
    requires InTime(log, id, p) && Ranges(log, id, p, i) && Ranges(log, id, p, j)
    requires log[i].clock.Valid() && log[j].clock.Valid()
    ensures log[i].day < log[j].day ==> i < j
  {
    StampDay(log[i]);
    StampDay(log[j]);
  }

  /** A message with the stamp of an earlier one that is read is so too, if it is behind the cursor. */
  lemma LaterRead(log: seq<Rec>, id: Cursor, p: nat, now: int, i: nat, j: nat)
    requires Sound(log) && InTime(log, id, p) && IsRead(log, id, p, now, i)
    requires i < j && p <= j && Told(log)(j) && Stamp(log[i]) == Stamp(log[j])
    ensures log[i].day == log[j].day && IsRead(log, id, p, now, j)
  {
    StampDay(log[i]);
    StampDay(log[j]);
    var d := log[j].day;
    assert !Ahead(now)(log[i]);
    forall m | From(id, p, d) <= m <= j && m < |log| && log[m].day == d ensures !Ahead(now)(log[m]) {
      if Ahead(now)(log[m]) && m < j {
        assert Ranges(log, id, p, m) && Ranges(log, id, p, j);
      }
    }
  }

  lemma LaterFewer(log: seq<Rec>, id: Cursor, p: nat, now: int, i: nat, j: nat)
    requires i < j < |log| && log[i].day == log[j].day
    ensures |After(log, id, p, now, j)| <= |After(log, id, p, now, i)|
  {
    var d := log[j].day;
    WhereLater(ReadOn(log, d, From(id, p, d), Talk(), Ahead(now)), i + 1, j + 1, |log|);
  }

  lemma LaterLoads(log: seq<Rec>, id: Cursor, p: nat, now: int, limit: nat, i: nat, j: nat)
    requires Sound(log) && InTime(log, id, p) && Loads(log, id, p, now, limit, i)
    requires i < j && p <= j && Told(log)(j) && Stamp(log[i]) == Stamp(log[j])
    ensures Loads(log, id, p, now, limit, j)
  {
    LaterRead(log, id, p, now, i, j);
    LaterFewer(log, id, p, now, i, j);
  }

  /** Lists of the same stamps are the same positions, from the end on. */
  lemma {:induction false} SameStamps(log: seq<Rec>, id: Cursor, p: nat, now: int, limit: nat, ps: seq<nat>,
                                      ws: seq<nat>, k: nat)
    requires Alike(log, id, p, now, limit, ps, ws) && k <= |ps|
    ensures ps[k..] == ws[k..]
    decreases |ps| - k
  {
    if k < |ps| {
      SameStamps(log, id, p, now, limit, ps, ws, k + 1);
      SameAt(log, id, p, now, limit, ps, ws, k);
      SameTails(ps, ws, k);
    }
  }

  lemma SameTails(a: seq<nat>, b: seq<nat>, k: nat)
    requires k < |a| == |b| && a[k] == b[k] && a[k + 1..] == b[k + 1..]
    ensures a[k..] == b[k..]
  {
    assert a[k..] == [a[k]] + a[k + 1..] && b[k..] == [b[k]] + b[k + 1..];
  }

  /** What loads and what is wanted, with the same stamps. */
  ghost predicate Alike(log: seq<Rec>, id: Cursor, p: nat, now: int, limit: nat, ps: seq<nat>, ws: seq<nat>) {
    && Sound(log) && InTime(log, id, p) && Ascending(ps) && Ascending(ws) && ws == Wanted(log, p, limit)
    && (forall i: nat :: i in ps <==> Loads(log, id, p, now, limit, i))
    && AllAlike(log, ps, ws)
  }

  ghost predicate AllAlike(log: seq<Rec>, ps: seq<nat>, ws: seq<nat>) {
    |ps| == |ws| &&
    forall a | 0 <= a < |ps| :: ps[a] < |log| && ws[a] < |log| && Stamp(log[ps[a]]) == Stamp(log[ws[a]])
  }

  lemma SameAt(log: seq<Rec>, id: Cursor, p: nat, now: int, limit: nat, ps: seq<nat>, ws: seq<nat>, k: nat)
    requires Alike(log, id, p, now, limit, ps, ws) && k < |ps| && ps[k + 1..] == ws[k + 1..]
    ensures ps[k] == ws[k]
  {
    var i, j := ps[k], ws[k];
    assert i in ps && j in ws;
    WantedIff(log, p, limit, j);
    LoadsRanges(log, id, p, now, limit, i);
    if i < j {
      LaterLoads(log, id, p, now, limit, i, j);
      LaterIn(ps, ws, k, j);
    } else if j < i {
      LaterWanted(log, p, limit, i, j);
      LaterIn(ws, ps, k, i);
    }
  }

  /** What comes after position `k` of two lists that agree from there on cannot be at `k` in the other. */
  lemma LaterIn(a: seq<nat>, b: seq<nat>, k: nat, x: nat)
    requires Ascending(a) && Ascending(b) && k < |a| == |b| && a[k + 1..] == b[k + 1..]
    requires x in a && a[k] < x
    ensures b[k] != x
  {
    var i :| 0 <= i < |a| && a[i] == x;
    assert i > k;
    assert a[i] == a[k + 1..][i - k - 1] == b[k + 1..][i - k - 1] == b[i];
  }

  /** If stamps are in order, returning the wanted messages is loading the wanted positions: none stands in for one. */
  lemma WantedLoadIff(files: Files, log: seq<Rec>, id: Cursor, p: nat, now: int, entity: string, me: string, limit: nat)
    requires Stored(files, log) && PointsAt(log, id, p) && Sound(log) && InTime(log, id, p)
    ensures Load(files, id, now, entity, me, limit) ==
              Ok(Map(Shows(log, EntryOf(entity, me)), Wanted(log, p, limit))) <==>
            forall i: nat :: i in Wanted(log, p, limit) <==> Loads(log, id, p, now, limit, i)
  {
    var shows, ws := Shows(log, EntryOf(entity, me)), Wanted(log, p, limit);
    var ps := LoadLatestIDIff(files, log, id, p, now, entity, me, limit);
    LoadedAscends(log, id, p, now, limit, ps);
    WantedAscends(log, p, limit);
    if Map(shows, ps) == Map(shows, ws) {
      StampsOf(log, entity, me, p, limit, ps);
      SameStamps(log, id, p, now, limit, ps, ws, 0);
      assert ps[0..] == ps && ws[0..] == ws;
    } else if forall i: nat :: i in ws <==> Loads(log, id, p, now, limit, i) {
      SameAscending(ps, ws);
    }
  }

  lemma StampsOf(log: seq<Rec>, entity: string, me: string, p: nat, limit: nat, ps: seq<nat>)
    requires forall a | 0 <= a < |ps| :: ps[a] < |log|
    requires Map(Shows(log, EntryOf(entity, me)), ps) == Map(Shows(log, EntryOf(entity, me)), Wanted(log, p, limit))
    ensures AllAlike(log, ps, Wanted(log, p, limit))
  {
    var shows, ws := Shows(log, EntryOf(entity, me)), Wanted(log, p, limit);
    assert |Map(shows, ps)| == |ps| && |Map(shows, ws)| == |ws|;
    forall a | 0 <= a < |ps| ensures ws[a] < |log| && Stamp(log[ps[a]]) == Stamp(log[ws[a]]) {
      assert ws[a] in ws;
      WantedIff(log, p, limit, ws[a]);
      assert Map(shows, ps)[a] == shows(ps[a]) && Map(shows, ws)[a] == shows(ws[a]);
    }
  }

  // ----- Messages that are missed, and one that is not -----

  lemma NothingLoaded(files: Files, log: seq<Rec>, id: Cursor, p: nat, now: int, entity: string, me: string, limit: nat)
    requires Stored(files, log) && PointsAt(log, id, p) && Sound(log)
    requires forall i: nat :: !Loads(log, id, p, now, limit, i)
    ensures Load(files, id, now, entity, me, limit) == Ok([])
  {
    var ps := LoadLatestIDIff(files, log, id, p, now, entity, me, limit);
    NoneIn(ps);
    assert Map(Shows(log, EntryOf(entity, me)), []) == [];
  }

  lemma NoneIn(ps: seq<nat>)
    requires forall i: nat :: i !in ps
    ensures ps == []
  {
    FirstIn(ps);
  }

  lemma FirstIn(ps: seq<nat>)
    ensures ps != [] ==> ps[0] in ps
  {
  }

  lemma AheadUnread(log: seq<Rec>, id: Cursor, p: nat, now: int, i: nat)
    requires i < |log| && Ahead(now)(log[i])
    ensures Told(log)(i) && !IsRead(log, id, p, now, i)
  {
    assert Talk()(log[i]);
    assert From(id, p, log[i].day) <= i ==> !Clear(log, Ahead(now), log[i].day, From(id, p, log[i].day), i);
  }

  /** A log of one message, and a cursor from before it. */
  lemma OneMessage(r: Rec)
    requires Genuine(r) && PlainLine(r.text) && r.day > ZERO_DAY
    ensures Stored(map[r.day := r.text + "\n"], [r]) && PointsAt([r], Cursor(r.day, -1), 0) && Sound([r])
  {
    AppendStored(map[], [], r);
    assert [] + [r] == [r] && "" + r.text == r.text && map[][r.day := r.text + "\n"] == map[r.day := r.text + "\n"];
    assert [r][..0] == [];
  }

  /** A message stamped at or after now is not loaded. */
  lemma AheadMissed(r: Rec, now: int, entity: string, me: string, limit: nat)
    requires Genuine(r) && PlainLine(r.text) && r.day > ZERO_DAY && Ahead(now)(r)
    ensures Load(map[r.day := r.text + "\n"], Cursor(r.day, -1), now, entity, me, limit) == Ok([])
    ensures Told([r])(0)
  {
    OneMessage(r);
    AheadUnread([r], Cursor(r.day, -1), 0, now, 0);
    NothingLoaded(map[r.day := r.text + "\n"], [r], Cursor(r.day, -1), 0, now, entity, me, limit);
  }

  /** Nor is one from more than MAX_TRIES days ago, if nothing came since. */
  lemma SilenceMissed(r: Rec, now: int, entity: string, me: string, limit: nat)
    requires Genuine(r) && PlainLine(r.text) && r.day > ZERO_DAY
    requires r.day <= DayOf(now) - MAX_TRIES && limit > 0
    ensures Load(map[r.day := r.text + "\n"], Cursor(r.day, -1), now, entity, me, limit) == Ok([])
  {
    var id, hi := Cursor(r.day, -1), DayOf(now);
    OneMessage(r);
    forall d | d > r.day ensures Reads([r], id, 0, now, d) == [] {
      WhereNone(ReadOn([r], d, 0, Talk(), Ahead(now)), 0, 1);
    }
    assert Across([r], id, 0, now, hi + 1, hi) == [];
    assert Quiet([r], id, 0, now, limit, hi);
    NothingLoaded(map[r.day := r.text + "\n"], [r], id, 0, now, entity, me, limit);
  }

  /** The files after two appends. */
  function TwoFiles(a: Rec, b: Rec): Files {
    var files: Files := map[a.day := a.text + "\n"];
    files[b.day := FileText(files, b.day) + b.text + "\n"]
  }

  /** And the ID of the first. */
  lemma TwoMessages(a: Rec, b: Rec)
    requires Genuine(a) && Genuine(b) && PlainLine(a.text) && PlainLine(b.text) && a.day > ZERO_DAY && b.day > ZERO_DAY
    ensures Stored(TwoFiles(a, b), [a] + [b]) && PointsAt([a] + [b], Cursor(a.day, 0), 1) && Sound([a] + [b])
  {
    OneMessage(a);
    OneMessage(b);
    AppendStored(map[a.day := a.text + "\n"], [a], b);
    FirstPointed(a);
    PointsAtKept([a], Cursor(a.day, 0), 1, [b]);
    SoundPair([a], [b]);
  }

  lemma SoundPair(a: seq<Rec>, b: seq<Rec>)
    requires Sound(a) && Sound(b)
    ensures Sound(a + b)
  {
  }

  lemma FirstPointed(a: Rec)
    ensures PointsAt([a], Cursor(a.day, 0), 1)
  {
    assert DayLines([], a.day) == [] && Unlines([]) == "" && [] + [a] == [a];
    AppendPointsAt([], a);
  }

  /** So a client that has read one message is not given the next if that is stamped at or after now. */
  lemma SecondMissed(a: Rec, b: Rec, now: int, entity: string, me: string, limit: nat)
    requires Genuine(a) && PlainLine(a.text) && Genuine(b) && PlainLine(b.text)
    requires a.day > ZERO_DAY && b.day > ZERO_DAY && Ahead(now)(b)
    ensures Stored(TwoFiles(a, b), [a] + [b]) && PointsAt([a] + [b], Cursor(a.day, 0), 1) && Told([a] + [b])(1)
    ensures Load(TwoFiles(a, b), Cursor(a.day, 0), now, entity, me, limit) == Ok([])
  {
    TwoMessages(a, b);
    AheadUnread([a] + [b], Cursor(a.day, 0), 1, now, 1);
    FirstNotRead(a, b, now);
    NothingLoaded(TwoFiles(a, b), [a] + [b], Cursor(a.day, 0), 1, now, entity, me, limit);
  }

  lemma FirstNotRead(a: Rec, b: Rec, now: int)
    ensures !IsRead([a] + [b], Cursor(a.day, 0), 1, now, 0)
  {
  }

  /** Nor if it is stamped on an earlier day than the first, as a server with a slow clock makes it after midnight. */
  lemma BackdatedMissed(a: Rec, b: Rec, now: int, entity: string, me: string, limit: nat)
    requires Genuine(a) && PlainLine(a.text) && Genuine(b) && PlainLine(b.text) && ZERO_DAY < b.day < a.day
    ensures Stored(TwoFiles(a, b), [a] + [b]) && PointsAt([a] + [b], Cursor(a.day, 0), 1)
    ensures Load(TwoFiles(a, b), Cursor(a.day, 0), now, entity, me, limit) == Ok([])
  {
    TwoMessages(a, b);
    FirstNotRead(a, b, now);
    NothingLoaded(TwoFiles(a, b), [a] + [b], Cursor(a.day, 0), 1, now, entity, me, limit);
  }

  /** A message stamped on a later day than the cursor is loaded although it was appended before. */
  lemma LaterDayRepeated(r: Rec, d: int, now: int, entity: string, me: string, limit: nat)
    requires Genuine(r) && PlainLine(r.text) && r.day > ZERO_DAY && Talk()(r) && Stamp(r) < now
    requires d < r.day && DayOf(now) < r.day + MAX_TRIES && limit > 0
    ensures Stored(map[r.day := r.text + "\n"], [r]) && PointsAt([r], Cursor(d, -1), 1)
    ensures Load(map[r.day := r.text + "\n"], Cursor(d, -1), now, entity, me, limit) == Ok([EntryOf(entity, me)(r)])
  {
    OneMessage(r);
    NoLineYet(r, d);
    LoadsAgain(r, Cursor(d, -1), now, limit);
    var ps := LoadLatestIDIff(map[r.day := r.text + "\n"], [r], Cursor(d, -1), 1, now, entity, me, limit);
    OnlyZero(r, ps);
    assert Map(Shows([r], EntryOf(entity, me)), [0]) == [EntryOf(entity, me)(r)];
  }

  lemma NoLineYet(r: Rec, d: int)
    requires d != r.day
    ensures PointsAt([r], Cursor(d, -1), 1)
  {
    assert [r][..1] == [r] && DayLines([r], d) == [] by {
      assert [r][1..] == [];
    }
  }

  lemma LoadsAgain(r: Rec, id: Cursor, now: int, limit: nat)
    requires Talk()(r) && Stamp(r) < now && id.day < r.day && DayOf(now) < r.day + MAX_TRIES && limit > 0
    ensures Loads([r], id, 1, now, limit, 0)
  {
    assert !Ahead(now)(r);
    assert IsRead([r], id, 1, now, 0);
    OnlyRead(r, id, now, r.day + 1, DayOf(now));
    assert After([r], id, 1, now, 0) == [];
  }

  lemma OnlyRead(r: Rec, id: Cursor, now: int, lo: int, hi: int)
    requires r.day < lo && id.day < lo
    ensures Across([r], id, 1, now, lo, hi) == []
  {
    forall i: nat ensures i !in Across([r], id, 1, now, lo, hi) {
      AcrossIff([r], id, 1, now, lo, hi, i);
    }
    NoneIn(Across([r], id, 1, now, lo, hi));
  }

  lemma OnlyZero(r: Rec, ps: seq<nat>)
    requires DayOrdered([r], ps) && 0 in ps
    ensures ps == [0]
  {
    SameAscending(ps, [0]);
  }
}
