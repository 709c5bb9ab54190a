/**
 The on-disk message store: one log file per day and conversation, read backwards day by day through a
 ring buffer, with byte offsets as cursors.

 Instants are integers in nanoseconds, and a day is a fixed number of them.
 */
module FsStore {
  import opened Text
  import opened ZncLog
  import opened Ring

  const MAX_TRIES := 100

  /** How a line is read and which messages are selected. */
  datatype Query = Query(read: string -> Parsed, sel: Message -> bool)

  function DayOf(t: int): int { t / 86_400_000_000_000 }

  function DayStart(d: int): int { d * 86_400_000_000_000 }

  /** The instant of a line in the file of day `d`. */
  function At(d: int, c: Clock): int { DayStart(d) + c.Seconds() * 1_000_000_000 }

  // ----- Lines of a file -----

  function DropCR(s: string): string {
    if s != "" && s[|s| - 1] == '\r' then s[..|s| - 1] else s
  }

  /** bufio.ScanLines: the text between line feeds, without a trailing carriage return. */
  function Lines(s: string): seq<string>
    decreases |s|
  {
    if s == "" then []
    else
      match Cut(s, "\n")
      case None => [DropCR(s)]
      case Some((a, b)) => [DropCR(a)] + Lines(b)
  }

  /** The lines read from byte `offset` on: what is left of the line there is skipped. */
  function LinesAfter(s: string, offset: int): seq<string> {
    if offset < 0 then Lines(s)
    else if offset > |s| then []
    else
      var ls := Lines(s[offset..]);
      if ls == [] then [] else ls[1..]
  }

  // ----- One day -----

  /** A loaded message and the instant its time tag gives. */
  datatype Entry = Entry(time: int, msg: Message)

  datatype Verdict = Fail | Skip | Stop | Take(entry: Entry)

  /** What the scan of day `d` between `end` and `ref` does with one line. */
  function Judge(line: string, d: int, ref: int, end: int, q: Query): Verdict {
    match q.read(line)
    case Malformed => Fail
    case Ignored => Skip
    case Line(m, c) =>
      if At(d, c) <= end then Skip
      else if At(d, c) >= ref then Stop
      else if q.sel(m) then Take(Entry(At(d, c), m)) else Skip
  }

  /** All messages of one day strictly between `end` and `ref`; reading stops at the first one past `ref`. */
  function ScanDay(lines: seq<string>, d: int, ref: int, end: int, q: Query): Result<seq<Entry>> {
    if lines == [] then Ok([])
    else
      match Judge(lines[0], d, ref, end, q)
      case Fail => Err
      case Skip => ScanDay(lines[1..], d, ref, end, q)
      case Stop => Ok([])
      case Take(e) => Resume([e], ScanDay(lines[1..], d, ref, end, q))
  }

  /** Prepending what was already collected. */
  function Resume(got: seq<Entry>, r: Result<seq<Entry>>): Result<seq<Entry>> {
    match r case Err => Err case Ok(ms) => Ok(got + ms)
  }

  /** The loop over the lines of a file: `got` is what was written to the ring, in order. */
  method FillRing(lines: seq<string>, d: int, ref: int, end: int, q: Query, ring: array<Entry>)
    returns (ok: bool, cur: nat, ghost got: seq<Entry>)
    requires ring.Length > 0
    modifies ring
    ensures ScanDay(lines, d, ref, end, q) == if ok then Ok(got) else Err
    ensures cur == |got| && Holds(ring[..], got, 0)
  {
    var i := 0;
    cur, got, ok := 0, [], true;
    ghost var all := ScanDay(lines, d, ref, end, q);
    assert lines[0..] == lines && (all.Ok? ==> [] + all.value == all.value);
    while i < |lines|
      invariant 0 <= i <= |lines| && cur == |got|
      invariant Holds(ring[..], got, 0)
      invariant all == Resume(got, ScanDay(lines[i..], d, ref, end, q))
    {
      var verdict := Judge(lines[i], d, ref, end, q);
      assert lines[i..][1..] == lines[i + 1..];
      i := i + 1;
      if verdict.Fail? {
        ok := false;
        return;
      } else if verdict.Stop? {
        break;
      } else if verdict.Take? {
        ghost var before := ring[..];
        HoldsPush(before, got, 0, verdict.entry);
        SlotIsMod(cur, ring.Length);
        ring[cur % ring.Length] := verdict.entry;
        assert ring[..] == before[Slot(|got| + 0, |before|) := verdict.entry];
        cur := cur + 1;
        ResumeTwice(got, verdict.entry, ScanDay(lines[i..], d, ref, end, q));
        got := got + [verdict.entry];
      }
    }
    assert got + [] == got;
  }

  /** parseMessagesBefore: the last `limit` messages of a day, through a ring buffer of that size. */
  method ParseMessagesBefore(lines: seq<string>, d: int, ref: int, end: int, q: Query, limit: nat)
    returns (r: Result<seq<Entry>>)
    requires limit > 0
    ensures r == match ScanDay(lines, d, ref, end, q) case Err => Err case Ok(ms) => Ok(LastN(ms, limit))
  {
    var blank := Entry(0, Message(Prefix("", "", ""), "", []));
    var ring := new Entry[limit](_ => blank);
    var ok, cur, got := FillRing(lines, d, ref, end, q, ring);
    if !ok {
      return Err;
    }
    var ms := Read(ring, cur, got);
    r := Ok(ms);
  }

  lemma ResumeTwice(got: seq<Entry>, m: Entry, r: Result<seq<Entry>>)
    ensures Resume(got, Resume([m], r)) == Resume(got + [m], r)
  {
    assert r.Ok? ==> got + ([m] + r.value) == got + [m] + r.value;
  }

  // ----- Walking back over the days -----

  /** The qualifying messages of each day. */
  type Days = int -> Result<seq<Entry>>

  /**
   The walk both backward queries perform from day `d` down to day `lo`: it stops when `remaining`
   messages were found, or after MAX_TRIES days in a row without any.
   */
  function Walk(days: Days, lo: int, d: int, remaining: nat, tries: nat): Result<seq<Entry>>
    requires tries <= MAX_TRIES
    decreases remaining, MAX_TRIES - tries
  {
    if remaining == 0 || tries == MAX_TRIES || d < lo then Ok([])
    else
      match days(d)
      case Err => Err
      case Ok(ms) =>
        var buf := LastN(ms, remaining);
        match Walk(days, lo, d - 1, remaining - |buf|, if buf == [] then tries + 1 else 0)
        case Err => Err
        case Ok(older) => Ok(older + buf)
  }

  /** The messages of days lo..hi in order. */
  function Between(days: Days, lo: int, hi: int): seq<Entry>
    decreases hi - lo
  {
    if hi < lo then [] else Between(days, lo, hi - 1) + OnDay(days, hi)
  }

  function OnDay(days: Days, d: int): seq<Entry> {
    match days(d) case Ok(ms) => ms case Err => []
  }

  ghost predicate Readable(days: Days, lo: int, hi: int) {
    forall d | lo <= d <= hi :: days(d).Ok?
  }

  /** No message on any of the MAX_TRIES days up to `d`. */
  ghost predicate Silent(days: Days, d: int) {
    forall k | d - MAX_TRIES < k <= d :: OnDay(days, k) == []
  }

  /** A silence that ends the walk before `limit` messages were found although older ones exist. */
  ghost predicate CutShort(days: Days, lo: int, hi: int, limit: nat, d: int) {
    && lo <= d - MAX_TRIES && d <= hi
    && Silent(days, d)
    && |Between(days, d + 1, hi)| < limit
    && Between(days, lo, d - MAX_TRIES) != []
  }

  /** A silence of MAX_TRIES days before `limit` messages were found. */
  ghost predicate Gap(days: Days, hi: int, limit: nat, d: int) {
    Silent(days, d) && |Between(days, d + 1, hi)| < limit
  }

  lemma {:induction false} BetweenSplit(days: Days, lo: int, mid: int, hi: int)
    requires lo <= mid + 1 && mid <= hi
    ensures Between(days, lo, hi) == Between(days, lo, mid) + Between(days, mid + 1, hi)
    decreases hi - mid
  {
    if mid < hi {
      BetweenSplit(days, lo, mid, hi - 1);
    }
  }

  lemma {:induction false} BetweenSilent(days: Days, lo: int, hi: int)
    requires forall k | lo <= k <= hi :: OnDay(days, k) == []
    ensures Between(days, lo, hi) == []
    decreases hi - lo
  {
    if lo <= hi {
      BetweenSilent(days, lo, hi - 1);
    }
  }

  /** What the walk has found when it is at day `d`: everything newer, with the last `tries` days silent. */
  ghost predicate Walking(days: Days, lo: int, hi: int, limit: nat, d: int, remaining: nat, tries: nat) {
    && lo - 1 <= d <= hi && tries <= MAX_TRIES && d + tries <= hi
    && remaining == limit - |LastN(Between(days, d + 1, hi), limit)|
    && forall k | d < k <= d + tries :: OnDay(days, k) == []
  }

  lemma LastNConcat<T>(a: seq<T>, b: seq<T>, n: nat)
    ensures |b| <= n ==> LastN(a + b, n) == LastN(a, n - |b|) + b
    ensures |b| >= n ==> LastN(a + b, n) == LastN(b, n)
  {
  }

  lemma BetweenFirst(days: Days, d: int, hi: int)
    requires d <= hi
    ensures Between(days, d, hi) == OnDay(days, d) + Between(days, d + 1, hi)
  {
    BetweenSplit(days, d, d, hi);
    assert Between(days, d, d - 1) == [];
    assert Between(days, d, d) == [] + OnDay(days, d) == OnDay(days, d);
  }

  lemma WalkStep(days: Days, lo: int, hi: int, limit: nat, d: int, remaining: nat, tries: nat)
    requires Walking(days, lo, hi, limit, d, remaining, tries) && remaining > 0 && tries < MAX_TRIES && lo <= d
    ensures var buf := LastN(OnDay(days, d), remaining);
            && |buf| <= remaining
            && Walking(days, lo, hi, limit, d - 1, remaining - |buf|, if buf == [] then tries + 1 else 0)
            && LastN(Between(days, d, hi), limit) == buf + LastN(Between(days, d + 1, hi), limit)
  {
    var newer := Between(days, d + 1, hi);
    BetweenFirst(days, d, hi);
    LastNConcat(OnDay(days, d), newer, limit);
  }

  /** One day of the walk: what the days before it add goes in front. */
  lemma WalkUnfold(days: Days, lo: int, d: int, remaining: nat, tries: nat, tail: seq<Entry>)
    requires remaining > 0 && tries < MAX_TRIES && lo <= d && days(d).Ok?
    ensures var buf := LastN(OnDay(days, d), remaining);
            var older := Walk(days, lo, d - 1, remaining - |buf|, if buf == [] then tries + 1 else 0);
            older.Ok? ==> var r := Walk(days, lo, d, remaining, tries);
                          r.Ok? && r.value + tail == older.value + (buf + tail)
  {
  }

  /** The walk from day `d` on completes the newer messages to all of these. */
  ghost predicate Finds(days: Days, lo: int, hi: int, limit: nat, d: int, remaining: nat, tries: nat, all: seq<Entry>)
    requires tries <= MAX_TRIES
  {
    var r := Walk(days, lo, d, remaining, tries);
    r.Ok? && r.value + LastN(Between(days, d + 1, hi), limit) == all
  }

  lemma WalkExtends(days: Days, lo: int, hi: int, limit: nat, d: int, remaining: nat, tries: nat, all: seq<Entry>)
    requires Walking(days, lo, hi, limit, d, remaining, tries) && remaining > 0 && tries < MAX_TRIES && lo <= d
    requires days(d).Ok?
    requires var buf := LastN(OnDay(days, d), remaining);
             Finds(days, lo, hi, limit, d - 1, remaining - |buf|, if buf == [] then tries + 1 else 0, all)
    ensures Finds(days, lo, hi, limit, d, remaining, tries, all)
  {
    WalkStep(days, lo, hi, limit, d, remaining, tries);
    WalkUnfold(days, lo, d, remaining, tries, LastN(Between(days, d + 1, hi), limit));
  }

  lemma WalkEnds(days: Days, lo: int, hi: int, limit: nat, d: int, remaining: nat, tries: nat)
    requires tries <= MAX_TRIES && (remaining == 0 || tries == MAX_TRIES || d < lo)
    ensures Finds(days, lo, hi, limit, d, remaining, tries, LastN(Between(days, d + 1, hi), limit))
  {
    var newer := LastN(Between(days, d + 1, hi), limit);
    assert [] + newer == newer;
  }

  lemma WalkDone(days: Days, lo: int, hi: int, limit: nat, d: int)
    requires lo - 1 <= d <= hi && (d < lo || |Between(days, d + 1, hi)| >= limit)
    ensures LastN(Between(days, lo, hi), limit) == LastN(Between(days, d + 1, hi), limit)
  {
    BetweenSplit(days, lo, d, hi);
    LastNConcat(Between(days, lo, d), Between(days, d + 1, hi), limit);
  }

  /** The last `limit` messages of the days after `stop`. */
  ghost predicate AfterDay(days: Days, stop: int, hi: int, limit: nat, all: seq<Entry>) {
    all == LastN(Between(days, stop + 1, hi), limit)
  }

  /** If no silence cuts it short, the walk completes what it has to the last `limit` messages. */
  lemma {:induction false} WalkComplete(days: Days, lo: int, hi: int, limit: nat, d: int, remaining: nat, tries: nat,
                                        all: seq<Entry>)
    requires Readable(days, lo, hi) && Walking(days, lo, hi, limit, d, remaining, tries)
    requires AfterDay(days, lo - 1, hi, limit, all) && forall k :: !CutShort(days, lo, hi, limit, k)
    ensures Finds(days, lo, hi, limit, d, remaining, tries, all)
    decreases remaining, MAX_TRIES - tries
  {
    if remaining == 0 || d < lo {
      WalkDone(days, lo, hi, limit, d);
      WalkEnds(days, lo, hi, limit, d, remaining, tries);
    } else if tries == MAX_TRIES {
      WalkSilenced(days, lo, hi, limit, d);
      WalkEnds(days, lo, hi, limit, d, remaining, tries);
    } else {
      WalkStep(days, lo, hi, limit, d, remaining, tries);
      var buf := LastN(OnDay(days, d), remaining);
      WalkComplete(days, lo, hi, limit, d - 1, remaining - |buf|, if buf == [] then tries + 1 else 0, all);
      WalkExtends(days, lo, hi, limit, d, remaining, tries, all);
    }
  }

  /** A walk that gives up in a silence that cuts nothing short has found everything. */
  lemma WalkSilenced(days: Days, lo: int, hi: int, limit: nat, d: int)
    requires Walking(days, lo, hi, limit, d, limit - |LastN(Between(days, d + 1, hi), limit)|, MAX_TRIES)
    requires |Between(days, d + 1, hi)| < limit && lo <= d
    requires !CutShort(days, lo, hi, limit, d + MAX_TRIES)
    ensures Between(days, lo, hi) == Between(days, d + 1, hi)
  {
    BetweenSplit(days, lo, d, hi);
    BetweenSplit(days, d + 1, d + MAX_TRIES, hi);
    BetweenSilent(days, d + 1, d + MAX_TRIES);
    assert Silent(days, d + MAX_TRIES);
  }

  lemma BetweenLonger(days: Days, lo: int, lo': int, hi: int)
    requires lo <= lo' <= hi + 1
    ensures |Between(days, lo, hi)| >= |Between(days, lo', hi)|
  {
    BetweenSplit(days, lo, lo' - 1, hi);
  }

  /** The silence at `k` still lies ahead of a walk that has not yet found enough. */
  lemma CutAhead(days: Days, lo: int, hi: int, limit: nat, d: int, remaining: nat, tries: nat, k: int)
    requires Walking(days, lo, hi, limit, d, remaining, tries)
    requires CutShort(days, lo, hi, limit, k) && k <= d + tries
    ensures remaining > 0 && lo <= d
  {
    var heard := Between(days, d + tries + 1, hi);
    assert |heard| < limit by {
      BetweenLonger(days, k + 1, d + tries + 1, hi);
    }
    assert Between(days, d + 1, hi) == heard by {
      BetweenSplit(days, d + 1, d + tries, hi);
      BetweenSilent(days, d + 1, d + tries);
      assert [] + heard == heard;
    }
  }

  lemma GivesUpEarly(days: Days, lo: int, hi: int, limit: nat, d: int, k: int)
    requires CutShort(days, lo, hi, limit, k) && k - MAX_TRIES <= d <= hi
    requires |Between(days, d + 1, hi)| < limit
    ensures |LastN(Between(days, d + 1, hi), limit)| < |LastN(Between(days, lo, hi), limit)|
  {
    BetweenSplit(days, lo, d, hi);
    BetweenSplit(days, lo, k - MAX_TRIES, d);
  }

  /** A walk heading for a silence that cuts it short ends with too few messages. */
  lemma {:induction false} WalkTooShort(days: Days, lo: int, hi: int, limit: nat, d: int, remaining: nat, tries: nat,
                                        k: int)
    requires Readable(days, lo, hi) && Walking(days, lo, hi, limit, d, remaining, tries)
    requires CutShort(days, lo, hi, limit, k) && k <= d + tries
    ensures var r := Walk(days, lo, d, remaining, tries);
            r.Ok? && |r.value| + |LastN(Between(days, d + 1, hi), limit)| < |LastN(Between(days, lo, hi), limit)|
    decreases remaining, MAX_TRIES - tries
  {
    CutAhead(days, lo, hi, limit, d, remaining, tries, k);
    if tries == MAX_TRIES {
      assert Walk(days, lo, d, remaining, tries) == Ok([]);
      GivesUpEarly(days, lo, hi, limit, d, k);
    } else {
      WalkStep(days, lo, hi, limit, d, remaining, tries);
      var buf := LastN(OnDay(days, d), remaining);
      assert buf != [] ==> k < d;
      WalkTooShort(days, lo, hi, limit, d - 1, remaining - |buf|, if buf == [] then tries + 1 else 0, k);
      WalkUnfold(days, lo, d, remaining, tries, LastN(Between(days, d + 1, hi), limit));
    }
  }

  /**
   A backward query over readable days returns exactly the last `limit` messages, unless, and only unless,
   it meets a silence of MAX_TRIES days before it has found enough and there are older messages.
   */
  lemma WalkIff(days: Days, lo: int, hi: int, limit: nat)
    requires Readable(days, lo, hi) && lo <= hi + 1
    ensures Walk(days, lo, hi, limit, 0) == Ok(LastN(Between(days, lo, hi), limit)) <==>
            forall k :: !CutShort(days, lo, hi, limit, k)
  {
    assert Between(days, hi + 1, hi) == [];
    assert Walking(days, lo, hi, limit, hi, limit, 0);
    if k :| CutShort(days, lo, hi, limit, k) {
      WalkTooShort(days, lo, hi, limit, hi, limit, 0, k);
    } else {
      WalkComplete(days, lo, hi, limit, hi, limit, 0, LastN(Between(days, lo, hi), limit));
      var r := Walk(days, lo, hi, limit, 0).value;
      assert r + [] == r;
    }
  }

  /** The walk is at day `d` with no silence behind it, and counts the silent days it comes from exactly. */
  ghost predicate Counting(days: Days, hi: int, limit: nat, d: int, tries: nat) {
    && (d + tries == hi || OnDay(days, d + tries + 1) != [])
    && forall k | d + MAX_TRIES < k <= hi :: !Gap(days, hi, limit, k)
  }

  /** Where the walk stops: before the first day, with enough messages, or at the first long silence. */
  ghost predicate Stops(days: Days, lo: int, hi: int, limit: nat, stop: int) {
    && lo - 1 <= stop <= hi
    && (|| stop < lo
        || |Between(days, stop + 1, hi)| >= limit
        || (stop + MAX_TRIES <= hi && Gap(days, hi, limit, stop + MAX_TRIES)))
    && forall k | stop + MAX_TRIES < k <= hi :: !Gap(days, hi, limit, k)
  }

  lemma CountOn(days: Days, hi: int, limit: nat, d: int, remaining: nat, tries: nat)
    requires Counting(days, hi, limit, d, tries) && tries < MAX_TRIES && d <= hi && remaining > 0
    ensures Counting(days, hi, limit, d - 1, if LastN(OnDay(days, d), remaining) == [] then tries + 1 else 0)
  {
  }

  lemma StopsHere(days: Days, lo: int, hi: int, limit: nat, d: int, remaining: nat, tries: nat)
    requires Walking(days, lo, hi, limit, d, remaining, tries) && Counting(days, hi, limit, d, tries)
    requires remaining == 0 || tries == MAX_TRIES || d < lo
    ensures Stops(days, lo, hi, limit, d)
  {
    if d >= lo && remaining > 0 {
      BetweenSplit(days, d + 1, d + MAX_TRIES, hi);
      assert Silent(days, d + MAX_TRIES);
    }
  }

  /** Whatever happens, the walk finds the last `limit` messages of the days down to where it stopped. */
  lemma {:induction false} WalkStops(days: Days, lo: int, hi: int, limit: nat, d: int, remaining: nat, tries: nat)
    returns (stop: int, all: seq<Entry>)
    requires Readable(days, lo, hi) && Walking(days, lo, hi, limit, d, remaining, tries)
    requires Counting(days, hi, limit, d, tries)
    ensures Stops(days, lo, hi, limit, stop) && AfterDay(days, stop, hi, limit, all)
    ensures Finds(days, lo, hi, limit, d, remaining, tries, all)
    decreases remaining, MAX_TRIES - tries
  {
    if remaining == 0 || tries == MAX_TRIES || d < lo {
      stop, all := d, LastN(Between(days, d + 1, hi), limit);
      StopsHere(days, lo, hi, limit, d, remaining, tries);
      WalkEnds(days, lo, hi, limit, d, remaining, tries);
    } else {
      WalkStep(days, lo, hi, limit, d, remaining, tries);
      CountOn(days, hi, limit, d, remaining, tries);
      var buf := LastN(OnDay(days, d), remaining);
      stop, all := WalkStops(days, lo, hi, limit, d - 1, remaining - |buf|, if buf == [] then tries + 1 else 0);
      WalkExtends(days, lo, hi, limit, d, remaining, tries, all);
    }
  }

  lemma WalkFinds(days: Days, lo: int, hi: int, limit: nat) returns (stop: int)
    requires Readable(days, lo, hi) && lo <= hi + 1
    ensures Stops(days, lo, hi, limit, stop)
    ensures Walk(days, lo, hi, limit, 0) == Ok(LastN(Between(days, stop + 1, hi), limit))
  {
    assert Between(days, hi + 1, hi) == [];
    var all;
    stop, all := WalkStops(days, lo, hi, limit, hi, limit, 0);
    var r := Walk(days, lo, hi, limit, 0).value;
    assert r + [] == r;
  }

  /** A day with fewer than `limit` messages after it is reached exactly if no long silence comes after it. */
  lemma ReachedIff(days: Days, lo: int, hi: int, limit: nat, stop: int, d: int)
    requires Stops(days, lo, hi, limit, stop) && lo <= d <= hi && |Between(days, d + 1, hi)| < limit
    ensures stop < d <==> forall k | d + MAX_TRIES <= k <= hi :: !Gap(days, hi, limit, k)
  {
    if stop >= d {
      BetweenLonger(days, d + 1, stop + 1, hi);
      assert d + MAX_TRIES <= stop + MAX_TRIES <= hi && Gap(days, hi, limit, stop + MAX_TRIES);
    }
  }

  // ----- The two backward queries -----

  /** Files by day. */
  type Files = map<int, string>

  function FileLines(files: Files, d: int, offset: int): seq<string> {
    if d in files then LinesAfter(files[d], offset) else []
  }

  /** The instant day `d` is read up to when the query starts at `start`. */
  function UpTo(d: int, start: int): int {
    if d == DayOf(start) then start else DayStart(d + 1) - 1
  }

  function BeforeDays(files: Files, start: int, end: int, q: Query): Days {
    d => ScanDay(FileLines(files, d, -1), d, UpTo(d, start), end, q)
  }

  /** The oldest day that can hold a message after `end`. */
  function OldestDay(start: int, end: int): int {
    if end < start then DayOf(end + 1) else DayOf(start) + 1
  }

  function Before(older: Result<seq<Entry>>, newer: seq<Entry>): Result<seq<Entry>> {
    match older case Err => Err case Ok(ms) => Ok(ms + newer)
  }

  lemma DayBefore(d: int)
    ensures DayOf(DayStart(d) - 1) == d - 1
  {
  }

  lemma DayOrder(a: int, b: int)
    ensures DayStart(a) >= DayStart(b) <==> a >= b
    ensures DayStart(a) == DayStart(b) <==> a == b
  {
  }

  /** The walk is at the end of a day, or where it began. */
  ghost predicate ComesFrom(start: int, t: int, day: int) {
    DayOf(t) == day <= DayOf(start) && t == UpTo(day, start)
  }

  lemma PreviousDay(start: int, t: int, day: int)
    requires ComesFrom(start, t, day)
    ensures ComesFrom(start, DayStart(day) - 1, day - 1)
  {
    DayBefore(day);
  }

  lemma OldestDayReached(d: int, start: int, end: int)
    requires d <= DayOf(start)
    ensures end < UpTo(d, start) <==> OldestDay(start, end) <= d
  {
  }

  /** Put a day's messages in front of the ones already found. */
  method Prepend(messages: array<Entry>, remaining: nat, buf: seq<Entry>)
    requires |buf| <= remaining <= messages.Length
    modifies messages
    ensures messages[remaining - |buf|..] == buf + old(messages[remaining..])
  {
    forall i | 0 <= i < |buf| {
      messages[remaining - |buf| + i] := buf[i];
    }
  }

  /** The body of both loops: read one day and put what it adds in front. */
  method TakeDay(messages: array<Entry>, lines: seq<string>, d: int, ref: int, end: int, q: Query,
                 remaining: nat, tries: nat, ghost days: Days, ghost lo: int)
    returns (ok: bool, remaining': nat, tries': nat)
    requires 0 < remaining <= messages.Length && tries < MAX_TRIES && lo <= d
    requires days(d) == ScanDay(lines, d, ref, end, q)
    modifies messages
    ensures !ok ==> Walk(days, lo, d, remaining, tries) == Err
    ensures ok ==>
      && remaining' <= remaining && tries' <= MAX_TRIES
      && (remaining' < remaining || tries' == tries + 1)
      && Before(Walk(days, lo, d, remaining, tries), old(messages[remaining..])) ==
         Before(Walk(days, lo, d - 1, remaining', tries'), messages[remaining'..])
  {
    var found := ParseMessagesBefore(lines, d, ref, end, q, remaining);
    if found.Err? {
      WalkFails(days, lo, d, remaining, tries);
      return false, remaining, tries;
    }
    var buf := found.value;
    WalkDay(days, lo, d, remaining, tries, buf, messages[remaining..]);
    Prepend(messages, remaining, buf);
    ok, remaining', tries' := true, remaining - |buf|, if |buf| == 0 then tries + 1 else 0;
  }

  method GetBeforeTime(files: Files, start: int, end: int, q: Query, limit: nat) returns (r: Result<seq<Entry>>)
    ensures r == Walk(BeforeDays(files, start, end, q), OldestDay(start, end), DayOf(start), limit, 0)
  {
    var blank := Entry(0, Message(Prefix("", "", ""), "", []));
    var messages := new Entry[limit](_ => blank);
    var remaining, tries, t := limit, 0, start;
    ghost var days, lo := BeforeDays(files, start, end, q), OldestDay(start, end);
    ghost var all := Walk(days, lo, DayOf(start), limit, 0);
    assert messages[remaining..] == [] && all == Before(all, []) by {
      assert all.Ok? ==> all.value + [] == all.value;
    }
    ghost var day := DayOf(start);
    while remaining > 0 && tries < MAX_TRIES && end < t
      invariant 0 <= remaining <= limit && 0 <= tries <= MAX_TRIES
      invariant ComesFrom(start, t, day)
      invariant all == Before(Walk(days, lo, day, remaining, tries), messages[remaining..])
      decreases remaining, MAX_TRIES - tries
    {
      var d := DayOf(t);
      OldestDayReached(day, start, end);
      assert days(day) == ScanDay(FileLines(files, d, -1), d, t, end, q);
      var ok;
      ok, remaining, tries := TakeDay(messages, FileLines(files, d, -1), d, t, end, q, remaining, tries, days, lo);
      if !ok {
        return Err;
      }
      PreviousDay(start, t, day);
      t, day := DayStart(d) - 1, day - 1;
    }
    OldestDayReached(day, start, end);
    assert Walk(days, lo, day, remaining, tries) == Ok([]);
    r := Ok(messages[remaining..]);
    assert [] + r.value == r.value;
  }

  /** A message ID: a day and a byte offset into its file; an offset of -1 stands for a file that did not exist. */
  datatype Cursor = Cursor(day: int, offset: int)

  /** The zero instant, midnight on January 1 of year 1. */
  const ZERO_DAY: int := -719162

  function LatestDays(files: Files, id: Option<Cursor>, now: int, q: Query): Days {
    d => ScanDay(FileLines(files, d, OffsetAt(id, d)), d, UpTo(d, now), DayStart(ZERO_DAY), q)
  }

  function OffsetAt(id: Option<Cursor>, d: int): int {
    if id.Some? && id.value.day == d && id.value.offset >= 0 then id.value.offset else -1
  }

  function FirstDay(id: Option<Cursor>): int {
    if id.Some? then id.value.day else ZERO_DAY
  }

  /** The network and conversation an ID belongs to. */
  datatype Owner = Owner(network: int, entity: string)

  datatype MsgId = MsgId(owner: Owner, cursor: Cursor)

  /** An ID of another network or conversation is refused. */
  method LoadLatestID(files: Files, msgId: Option<MsgId>, asked: Owner, now: int, q: Query, limit: nat)
    returns (r: Result<seq<Entry>>)
    ensures var id := match msgId case Some(m) => Some(m.cursor) case None => None;
            r == if msgId.Some? && msgId.value.owner != asked then Err
                 else Walk(LatestDays(files, id, now, q), FirstDay(id), DayOf(now), limit, 0)
  {
    if msgId.Some? && msgId.value.owner != asked {
      return Err;
    }
    r := LoadSince(files, if msgId.Some? then Some(msgId.value.cursor) else None, now, q, limit);
  }

  /** The walk back to a cursor. */
  method LoadSince(files: Files, id: Option<Cursor>, now: int, q: Query, limit: nat)
    returns (r: Result<seq<Entry>>)
    ensures r == Walk(LatestDays(files, id, now, q), FirstDay(id), DayOf(now), limit, 0)
  {
    var afterTime := DayStart(FirstDay(id));
    var blank := Entry(0, Message(Prefix("", "", ""), "", []));
    var history := new Entry[limit](_ => blank);
    var remaining, tries, t := limit, 0, now;
    ghost var days, lo, day := LatestDays(files, id, now, q), FirstDay(id), DayOf(now);
    ghost var all := Walk(days, lo, day, limit, 0);
    assert history[remaining..] == [] && all == Before(all, []) by {
      assert all.Ok? ==> all.value + [] == all.value;
    }
    DayOrder(day, lo);
    while remaining > 0 && tries < MAX_TRIES && DayStart(DayOf(t)) >= afterTime
      invariant 0 <= remaining <= limit && 0 <= tries <= MAX_TRIES
      invariant DayOf(t) == day <= DayOf(now) && t == UpTo(day, now)
      invariant DayStart(day) >= afterTime <==> day >= lo
      invariant DayStart(day) == afterTime <==> day == lo
      invariant all == Before(Walk(days, lo, day, remaining, tries), history[remaining..])
      decreases remaining, MAX_TRIES - tries
    {
      var d, offset := DayOf(t), -1;
      if id.Some? && id.value.offset >= 0 && DayStart(d) == afterTime {
        offset := id.value.offset;
      }
      assert days(day) == ScanDay(FileLines(files, d, offset), d, t, DayStart(ZERO_DAY), q);
      var ok;
      ok, remaining, tries :=
        TakeDay(history, FileLines(files, d, offset), d, t, DayStart(ZERO_DAY), q, remaining, tries, days, lo);
      if !ok {
        return Err;
      }
      DayBefore(day);
      DayOrder(day - 1, lo);
      t, day := DayStart(d) - 1, day - 1;
    }
    assert Walk(days, lo, day, remaining, tries) == Ok([]);
    r := Ok(history[remaining..]);
    assert [] + r.value == r.value;
  }

  lemma WalkFails(days: Days, lo: int, d: int, remaining: nat, tries: nat)
    requires remaining > 0 && tries < MAX_TRIES && lo <= d && days(d).Err?
    ensures Walk(days, lo, d, remaining, tries) == Err
  {
  }

  /** One day of the walk, in front of what was found before. */
  lemma WalkDay(days: Days, lo: int, d: int, remaining: nat, tries: nat, buf: seq<Entry>, newer: seq<Entry>)
    requires remaining > 0 && tries < MAX_TRIES && lo <= d
    requires days(d).Ok? && buf == LastN(days(d).value, remaining)
    ensures Before(Walk(days, lo, d, remaining, tries), newer) ==
            Before(Walk(days, lo, d - 1, remaining - |buf|, if |buf| == 0 then tries + 1 else 0), buf + newer)
  {
    var older := Walk(days, lo, d - 1, remaining - |buf|, if buf == [] then tries + 1 else 0);
    assert older.Ok? ==> older.value + buf + newer == older.value + (buf + newer);
  }

  // ----- What a query over sorted files returns -----

  /** The messages of a file strictly between two instants, wherever they are. */
  function Select(lines: seq<string>, d: int, start: int, end: int, q: Query): seq<Entry> {
    if lines == [] then []
    else
      var rest := Select(lines[1..], d, start, end, q);
      match q.read(lines[0])
      case Line(m, c) => if end < At(d, c) < start && q.sel(m) then [Entry(At(d, c), m)] + rest else rest
      case _ => rest
  }

  /** Every line is a log line of that day, and times do not decrease. */
  ghost predicate Sorted(lines: seq<string>, q: Query) {
    && (forall i | 0 <= i < |lines| :: !q.read(lines[i]).Malformed?)
    && (forall i | 0 <= i < |lines| && q.read(lines[i]).Line? :: q.read(lines[i]).clock.Valid())
    && (forall i, j | 0 <= i < j < |lines| && q.read(lines[i]).Line? && q.read(lines[j]).Line? ::
          q.read(lines[i]).clock.Seconds() <= q.read(lines[j]).clock.Seconds())
  }

  lemma SortedRest(lines: seq<string>, q: Query)
    requires lines != [] && Sorted(lines, q)
    ensures Sorted(lines[1..], q)
  {
    var rest := lines[1..];
    assert forall i | 0 <= i < |rest| :: rest[i] == lines[i + 1];
  }

  /** Nothing in a file qualifies if no line does. */
  lemma {:induction false} SelectNone(lines: seq<string>, d: int, start: int, end: int, q: Query)
    requires forall i | 0 <= i < |lines| && q.read(lines[i]).Line? ::
               !(end < At(d, q.read(lines[i]).clock) < start)
    ensures Select(lines, d, start, end, q) == []
  {
    if lines != [] {
      assert !q.read(lines[0]).Line? || !(end < At(d, q.read(lines[0]).clock) < start);
      assert forall i | 0 <= i < |lines[1..]| :: lines[1..][i] == lines[i + 1];
      SelectNone(lines[1..], d, start, end, q);
    }
  }

  /** Stopping at the first line past the bound misses nothing in a sorted file. */
  lemma {:induction false} ScanSorted(lines: seq<string>, d: int, ref: int, end: int, q: Query)
    requires Sorted(lines, q)
    ensures ScanDay(lines, d, ref, end, q) == Ok(Select(lines, d, ref, end, q))
  {
    if lines != [] {
      SortedRest(lines, q);
      ScanSorted(lines[1..], d, ref, end, q);
      if Judge(lines[0], d, ref, end, q).Stop? {
        assert forall i | 0 <= i < |lines[1..]| :: lines[1..][i] == lines[i + 1];
        SelectNone(lines[1..], d, ref, end, q);
      }
    }
  }

  /** On a day other than the first, reading up to its last instant is reading all of it. */
  lemma {:induction false} SelectUpTo(lines: seq<string>, d: int, start: int, end: int, q: Query)
    requires Sorted(lines, q) && d <= DayOf(start)
    ensures Select(lines, d, UpTo(d, start), end, q) == Select(lines, d, start, end, q)
  {
    if lines != [] {
      SortedRest(lines, q);
      SelectUpTo(lines[1..], d, start, end, q);
      assert q.read(lines[0]).Line? ==> q.read(lines[0]).clock.Valid();
    }
  }

  /** All messages strictly between `end` and `start`, by day. */
  function Matching(files: Files, start: int, end: int, q: Query): Days {
    d => Ok(Select(FileLines(files, d, -1), d, start, end, q))
  }

  /** There is nothing to find outside the days the query covers. */
  lemma MatchingElsewhere(files: Files, start: int, end: int, q: Query, d: int)
    requires Sorted(FileLines(files, d, -1), q)
    requires d < OldestDay(start, end) || d > DayOf(start)
    ensures OnDay(Matching(files, start, end, q), d) == []
  {
    var lines := FileLines(files, d, -1);
    forall i | 0 <= i < |lines| && q.read(lines[i]).Line?
      ensures !(end < At(d, q.read(lines[i]).clock) < start)
    {
      var c := q.read(lines[i]).clock;
      assert c.Valid();
      assert DayStart(d) <= At(d, c) <= DayStart(d + 1) - 1_000_000_000;
    }
    SelectNone(lines, d, start, end, q);
  }

  lemma {:induction false} BetweenSame(a: Days, b: Days, lo: int, hi: int)
    requires forall d | lo <= d <= hi :: OnDay(a, d) == OnDay(b, d)
    ensures Between(a, lo, hi) == Between(b, lo, hi)
    decreases hi - lo
  {
    if lo <= hi {
      BetweenSame(a, b, lo, hi - 1);
    }
  }

  lemma CutShortSame(a: Days, b: Days, lo: int, hi: int, limit: nat, k: int)
    requires forall d | lo <= d <= hi :: OnDay(a, d) == OnDay(b, d)
    ensures CutShort(a, lo, hi, limit, k) <==> CutShort(b, lo, hi, limit, k)
  {
    if lo <= k - MAX_TRIES && k <= hi {
      BetweenSame(a, b, k + 1, hi);
      BetweenSame(a, b, lo, k - MAX_TRIES);
      assert Silent(a, k) <==> Silent(b, k) by {
        assert forall j | k - MAX_TRIES < j <= k :: OnDay(a, j) == OnDay(b, j);
      }
    }
  }

  /**
   LoadBeforeTime over sorted files returns exactly the last `limit` messages strictly between the bounds,
   if and only if no silence of MAX_TRIES days hides older ones while too few were found.
   */
  lemma LoadBeforeTimeIff(files: Files, start: int, end: int, q: Query, limit: nat)
    requires forall d | d in files :: Sorted(FileLines(files, d, -1), q)
    ensures var lo, hi, all := OldestDay(start, end), DayOf(start), Matching(files, start, end, q);
            Walk(BeforeDays(files, start, end, q), lo, hi, limit, 0) == Ok(LastN(Between(all, lo, hi), limit))
            <==> forall k :: !CutShort(all, lo, hi, limit, k)
  {
    var lo, hi, all := OldestDay(start, end), DayOf(start), Matching(files, start, end, q);
    var days := BeforeDays(files, start, end, q);
    forall d | lo <= d <= hi ensures days(d) == all(d) {
      ScanSorted(FileLines(files, d, -1), d, UpTo(d, start), end, q);
      SelectUpTo(FileLines(files, d, -1), d, start, end, q);
    }
    WalkIff(days, lo, hi, limit);
    BetweenSame(days, all, lo, hi);
    forall k ensures CutShort(days, lo, hi, limit, k) <==> CutShort(all, lo, hi, limit, k) {
      CutShortSame(days, all, lo, hi, limit, k);
    }
  }
}
