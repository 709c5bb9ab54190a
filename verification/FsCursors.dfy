/**
 Cursors of the on-disk store: byte offsets handed out by Append and LastMsgID, which keep their place after any number
 of further appends.
 */
module FsCursors {
  import opened Text
  import opened ZncLog
  import opened FsStore

  /** A message that was appended: the day and time of day of its time tag, and its line. */
  datatype Rec = Rec(day: int, clock: Clock, msg: Message, text: string)

  predicate PlainLine(l: string) {
    Free(l, '\n') && Free(l, '\r')
  }

  predicate Plain(log: seq<Rec>) {
    forall i | 0 <= i < |log| :: PlainLine(log[i].text)
  }

  /** The line is that of a well-formed message. */
  predicate Genuine(r: Rec) {
    && r.clock.Valid() && Complete(r.msg) && Loggable(r.msg) && WellFormed(r.msg)
    && r.text == MarshalLine(r.msg, r.clock)
  }

  /** The lines of one day's file. */
  function DayLines(log: seq<Rec>, d: int): seq<string> {
    if log == [] then []
    else DayHead(log[0], d) + DayLines(log[1..], d)
  }

  function DayHead(r: Rec, d: int): seq<string> {
    if r.day == d then [r.text] else []
  }

  lemma {:induction false} DayLinesConcat(a: seq<Rec>, b: seq<Rec>, d: int)
    ensures DayLines(a + b, d) == DayLines(a, d) + DayLines(b, d)
  {
    if a == [] {
      assert a + b == b;
    } else {
      DayLinesConcat(a[1..], b, d);
      var x, y, z := DayHead(a[0], d), DayLines(a[1..], d), DayLines(b, d);
      assert (a + b)[1..] == a[1..] + b && (a + b)[0] == a[0];
      assert x + (y + z) == x + y + z;
    }
  }

  lemma {:induction false} DayLinesPlain(log: seq<Rec>, d: int)
    requires Plain(log)
    ensures PlainLines(DayLines(log, d))
  {
    if log != [] {
      DayLinesPlain(log[1..], d);
    }
  }

  /** Lines as they stand in a file, each with its line feed. */
  function Unlines(ls: seq<string>): string {
    if ls == [] then "" else ls[0] + "\n" + Unlines(ls[1..])
  }

  lemma {:induction false} UnlinesConcat(a: seq<string>, b: seq<string>)
    ensures Unlines(a + b) == Unlines(a) + Unlines(b)
  {
    if a == [] {
      assert a + b == b;
    } else {
      assert (a + b)[1..] == a[1..] + b;
      UnlinesConcat(a[1..], b);
    }
  }

  ghost predicate PlainLines(ls: seq<string>) {
    forall l | l in ls :: PlainLine(l)
  }

  /** Reading a file line by line undoes writing it. */
  lemma {:induction false} LinesUnlines(ls: seq<string>)
    requires PlainLines(ls)
    ensures Lines(Unlines(ls)) == ls
  {
    if ls != [] {
      LinesUnlines(ls[1..]);
      assert ls[0] in ls;
      LinesFirst(ls[0], Unlines(ls[1..]));
    }
  }

  lemma LinesFirst(l: string, rest: string)
    requires Free(l, '\n')
    ensures Lines(l + "\n" + rest) == [DropCR(l)] + Lines(rest)
    ensures Free(l, '\r') ==> DropCR(l) == l
  {
    CutParts(l, "\n");
    CutBefore(l, "\n", rest);
  }

  lemma DropInto(s: string, head: string, l: string, rest: string, j: nat)
    requires j <= |l| && s == head + (l + "\n" + rest)
    ensures |head| + j <= |s| && s[|head| + j..] == l[j..] + "\n" + rest
  {
  }

  lemma LinesFrom(l: string, after: seq<string>)
    requires PlainLines(after) && Free(l, '\n')
    ensures Lines(l + "\n" + Unlines(after)) == [DropCR(l)] + after
  {
    LinesFirst(l, Unlines(after));
    LinesUnlines(after);
  }

  lemma UnlinesAround(before: seq<string>, l: string, after: seq<string>)
    ensures Unlines(before + [l] + after) == Unlines(before) + (l + "\n" + Unlines(after))
  {
    UnlinesConcat(before, [l] + after);
    assert before + [l] + after == before + ([l] + after);
    assert ([l] + after)[1..] == after;
  }

  lemma SkipTo(s: string, offset: nat, t: string, l: string, after: seq<string>)
    requires offset <= |s| && s[offset..] == t && Lines(t) == [l] + after
    ensures LinesAfter(s, offset) == after
  {
    assert ([l] + after)[1..] == after;
  }

  /** From any byte of a line on, the lines after it are read. */
  lemma LinesBehind(s: string, head: string, l: string, after: seq<string>, j: nat)
    requires PlainLines(after) && Free(l, '\n') && j <= |l|
    requires s == head + (l + "\n" + Unlines(after))
    ensures LinesAfter(s, |head| + j) == after
  {
    DropInto(s, head, l, Unlines(after), j);
    LinesFrom(l[j..], after);
    SkipTo(s, |head| + j, l[j..] + "\n" + Unlines(after), DropCR(l[j..]), after);
  }

  // ----- The store -----

  function FileText(files: Files, d: int): string {
    if d in files then files[d] else ""
  }

  /** The files hold exactly the appended messages, each on its day. */
  ghost predicate Stored(files: Files, log: seq<Rec>) {
    Plain(log) && forall d :: FileText(files, d) == Unlines(DayLines(log, d))
  }

  /** The time of day of an instant. */
  function ClockOf(t: int): (c: Clock)
    ensures c.Valid()
  {
    var s := (t - DayStart(DayOf(t))) / 1_000_000_000;
    Clock(s / 3600, s / 60 % 60, s % 60)
  }

  function RecOf(m: Message, t: int): Rec
    requires Complete(m)
  {
    Rec(DayOf(t), ClockOf(t), m, MarshalLine(m, ClockOf(t)))
  }

  /**
   A cursor past the first `p` messages: it points into the last line that was written for its day by then. Messages
   may be stamped on any day, before and after.
   */
  ghost predicate PointsAt(log: seq<Rec>, id: Cursor, p: nat) {
    && p <= |log|
    && (id.offset < 0 ==> DayLines(log[..p], id.day) == [])
    && (id.offset >= 0 ==> exists before, l, j: nat :: InLine(DayLines(log[..p], id.day), before, l, j, id.offset))
  }

  /** `offset` is byte `j` of the last of the given lines. */
  predicate InLine(lines: seq<string>, before: seq<string>, l: string, j: nat, offset: int) {
    lines == before + [l] && j <= |l| && offset == |Unlines(before)| + j
  }

  lemma PointsAtKept(log: seq<Rec>, id: Cursor, p: nat, more: seq<Rec>)
    requires PointsAt(log, id, p)
    ensures PointsAt(log + more, id, p)
  {
    assert (log + more)[..p] == log[..p];
  }

  lemma OneLine(log: seq<Rec>, r: Rec, d: int)
    ensures DayLines(log + [r], d) == DayLines(log, d) + if r.day == d then [r.text] else []
  {
    DayLinesConcat(log, [r], d);
    assert [r][1..] == [];
  }

  lemma AppendSameDay(log: seq<Rec>, r: Rec)
    ensures Unlines(DayLines(log + [r], r.day)) == Unlines(DayLines(log, r.day)) + r.text + "\n"
  {
    var lines := DayLines(log, r.day);
    OneLine(log, r, r.day);
    assert (lines + [r.text])[..|lines|] == lines;
    UnlinesEnd(lines + [r.text]);
  }

  lemma AppendOtherDay(log: seq<Rec>, r: Rec, d: int)
    requires d != r.day
    ensures DayLines(log + [r], d) == DayLines(log, d)
  {
    OneLine(log, r, d);
  }

  lemma AppendStored(files: Files, log: seq<Rec>, r: Rec)
    requires Stored(files, log) && PlainLine(r.text)
    ensures Stored(files[r.day := FileText(files, r.day) + r.text + "\n"], log + [r])
  {
    var files' := files[r.day := FileText(files, r.day) + r.text + "\n"];
    forall d ensures FileText(files', d) == Unlines(DayLines(log + [r], d)) {
      if d == r.day {
        AppendSameDay(log, r);
      } else {
        AppendOtherDay(log, r, d);
      }
    }
  }

  lemma AppendPointsAt(log: seq<Rec>, r: Rec)
    ensures PointsAt(log + [r], Cursor(r.day, |Unlines(DayLines(log, r.day))|), |log| + 1)
  {
    OneLine(log, r, r.day);
    assert (log + [r])[..|log| + 1] == log + [r];
    assert InLine(DayLines(log + [r], r.day), DayLines(log, r.day), r.text, 0, |Unlines(DayLines(log, r.day))|);
  }

  lemma {:induction false} UnlinesEnd(lines: seq<string>)
    requires lines != []
    ensures var n := |lines| - 1; Unlines(lines) == Unlines(lines[..n]) + lines[n] + "\n"
  {
    var n := |lines| - 1;
    assert lines == lines[..n] + [lines[n]] + [];
    UnlinesAround(lines[..n], lines[n], []);
  }

  /** The last byte of a file is the line feed of its last line. */
  lemma LastPointsAt(files: Files, log: seq<Rec>, d: int)
    requires Stored(files, log)
    ensures PointsAt(log, Cursor(d, |FileText(files, d)| - 1), |log|)
  {
    var lines := DayLines(log, d);
    assert log[..|log|] == log;
    if lines != [] {
      var n := |lines| - 1;
      UnlinesEnd(lines);
      assert lines == lines[..n] + [lines[n]];
      assert InLine(lines, lines[..n], lines[n], |lines[n]|, |FileText(files, d)| - 1);
    }
  }

  class FsLog {
    var files: Files
    ghost var log: seq<Rec>

    constructor ()
      ensures Valid() && log == []
    {
      files, log := map[], [];
    }

    ghost predicate Valid()
      reads this
    {
      Stored(files, log)
    }

    /** Write a line at the end of its day's file; the ID is where it starts. */
    method WriteLine(d: int, s: string, ghost r: Rec) returns (id: Cursor)
      requires Valid() && r.day == d && r.text == s && PlainLine(s)
      modifies this
      ensures Valid() && log == old(log) + [r]
      ensures id.day == d && PointsAt(log, id, |log|)
    {
      id := Cursor(d, |FileText(files, d)|);
      AppendStored(files, log, r);
      AppendPointsAt(log, r);
      files := files[d := FileText(files, d) + s + "\n"];
      log := log + [r];
    }

    method Append(m: Message, t: int) returns (id: Option<Cursor>)
      requires Valid() && Complete(m) && PlainLine(MarshalLine(m, ClockOf(t)))
      modifies this
      ensures Valid()
      ensures MarshalLine(m, ClockOf(t)) == "" ==> id == None && log == old(log)
      ensures MarshalLine(m, ClockOf(t)) != "" ==> id.Some? && log == old(log) + [RecOf(m, t)]
      ensures id.Some? ==> id.value.day == DayOf(t) && PointsAt(log, id.value, |log|)
    {
      var s := MarshalLine(m, ClockOf(t));
      if s == "" {
        return None;
      }
      var written := WriteLine(DayOf(t), s, RecOf(m, t));
      id := Some(written);
    }

    /** The ID at the end of a day's file, or -1 without one: what was stamped later is behind it again. */
    method LastMsgID(t: int) returns (id: Cursor)
      requires Valid()
      ensures id.day == DayOf(t) && PointsAt(log, id, |log|)
    {
      var d := DayOf(t);
      LastPointsAt(files, log, d);
      if d !in files {
        return Cursor(d, -1);
      }
      id := Cursor(d, |files[d]| - 1);
    }
  }
}
