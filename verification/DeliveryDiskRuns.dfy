/**
 Whole runs of the delivery protocol on log files: every run is the run of the protocol that belongs to its inputs, and
 what becomes of every logged message follows from the inputs.
 */
module DeliveryDiskRuns {
  import opened Text
  import opened FsCursors
  import opened FsLoads
  import opened DeliveryDisk
  import D = Delivery

  // ----- Runs -----

  const EMPTY := Disk(map[], map[], [], {}, map[], {})

  /** The on-disk store as the protocol sees it. */
  function LogFiles(): D.Store {
    D.Store((n: nat) => n, true, false)
  }

  /** The state after some inputs; one that cannot happen changes nothing. */
  function DiskAfter(xs: seq<Input>): Disk {
    if xs == [] then EMPTY
    else
      var n := |xs| - 1;
      var d := DiskAfter(xs[..n]);
      if Enabled(d, xs[n]) then Step(d, xs[n], n) else d
  }

  /** Everything logged by then. */
  function Logged(xs: seq<Input>): History {
    if xs == [] then map[]
    else
      var n := |xs| - 1;
      var d, recs := DiskAfter(xs[..n]), Logged(xs[..n]);
      if Enabled(d, xs[n]) then Said(d, recs, xs[n]) else recs
  }

  ghost predicate PlainPeer(peers: seq<Peer>, c: Client) {
    exists i | 0 <= i < |peers| :: peers[i].dc.client == c && !peers[i].dc.chatHistory
  }

  /** A backlog client may only join connections of its own name if one of them is a backlog client too. */
  ghost predicate Unmixed(d: Disk, x: Input) {
    x.Join? && !x.dc.chatHistory ==> First(d, x.dc.client) || PlainPeer(d.peers, x.dc.client)
  }

  ghost predicate ValidRun(xs: seq<Input>) {
    forall j | 0 <= j < |xs| :: ValidAt(xs, j)
  }

  ghost predicate ValidAt(xs: seq<Input>, j: nat)
    requires j < |xs|
  {
    Enabled(DiskAfter(xs[..j]), xs[j]) && Unmixed(DiskAfter(xs[..j]), xs[j])
  }

  /** The state of the protocol after so many of its events. */
  function StateAt(es: seq<D.Event>, j: nat): D.State
    requires j <= |es|
  {
    D.Run(D.Init(LogFiles()), es[..j])
  }

  /** The events of the protocol are those of the inputs, one by one. */
  ghost predicate Follows(xs: seq<Input>, es: seq<D.Event>) {
    |es| == |xs| && forall j | 0 <= j < |xs| :: MatchesAt(xs, es, j)
  }

  ghost predicate MatchesAt(xs: seq<Input>, es: seq<D.Event>, j: nat)
    requires j < |es| == |xs|
  {
    Matches(DiskAfter(xs[..j]), Logged(xs[..j]), StateAt(es, j), xs[j], es[j])
  }

  // ----- The run of the protocol -----

  lemma StartRefines()
    ensures Refines(EMPTY, map[], D.Init(LogFiles()))
  {
  }

  lemma PlainIff(recs: History, peers: seq<Peer>, conns: seq<D.Conn>, c: Client)
    requires PeersAgree(recs, peers, conns)
    ensures PlainPeer(peers, c) <==> D.Plain(conns, c)
  {
    assert forall i | 0 <= i < |peers| :: PeerAgrees(recs, peers[i], conns[i]);
  }

  lemma StepUnmixed(d: Disk, recs: History, s: D.State, x: Input, e: D.Event)
    requires PeersAgree(recs, d.peers, s.conns) && Unmixed(d, x) && Matches(d, recs, s, x, e)
    ensures D.Unmixed(s, e)
  {
    if e.Connect? {
      FirstIff(recs, d, s, e.conn.client);
      PlainIff(recs, d.peers, s.conns, e.conn.client);
    }
  }

  lemma {:induction false} RunThen(s: D.State, es: seq<D.Event>, e: D.Event)
    requires D.ValidRun(s, es) && D.Enabled(D.Run(s, es), e) && D.Unmixed(D.Run(s, es), e)
    ensures D.ValidRun(s, es + [e]) && D.Run(s, es + [e]) == D.Step(D.Run(s, es), e)
    decreases es
  {
    if es == [] {
      assert [e][1..] == [] && es + [e] == [e];
    } else {
      assert (es + [e])[0] == es[0] && (es + [e])[1..] == es[1..] + [e];
      RunThen(D.Go(s, es[0]), es[1..], e);
    }
  }

  /** The states after so many inputs and so many events belong together. */
  ghost predicate Together(xs: seq<Input>, es: seq<D.Event>, n: nat)
    requires n <= |xs| && n <= |es|
  {
    && D.ValidRun(D.Init(LogFiles()), es[..n]) && Refines(DiskAfter(xs[..n]), Logged(xs[..n]), StateAt(es, n))
    && StateAt(es, n).store == LogFiles()
  }

  lemma AfterNext(xs: seq<Input>, n: nat)
    requires ValidRun(xs) && n < |xs|
    ensures Enabled(DiskAfter(xs[..n]), xs[n]) && Unmixed(DiskAfter(xs[..n]), xs[n])
    ensures DiskAfter(xs[..n + 1]) == Step(DiskAfter(xs[..n]), xs[n], n)
    ensures Logged(xs[..n + 1]) == Said(DiskAfter(xs[..n]), Logged(xs[..n]), xs[n])
  {
    assert ValidAt(xs, n);
    assert xs[..n + 1][..n] == xs[..n] && xs[..n + 1][n] == xs[n];
  }

  lemma StateNext(es: seq<D.Event>, n: nat, e: D.Event)
    requires n < |es| && es[n] == e && D.ValidRun(D.Init(LogFiles()), es[..n])
    requires D.Enabled(StateAt(es, n), e) && D.Unmixed(StateAt(es, n), e)
    ensures D.ValidRun(D.Init(LogFiles()), es[..n + 1]) && StateAt(es, n + 1) == D.Step(StateAt(es, n), e)
  {
    RunThen(D.Init(LogFiles()), es[..n], e);
    assert es[..n] + [e] == es[..n + 1];
  }

  lemma TogetherStart(xs: seq<Input>, es: seq<D.Event>)
    ensures Together(xs, es, 0)
  {
    StartRefines();
    assert xs[..0] == [] && es[..0] == [];
  }

  lemma TogetherNext(xs: seq<Input>, es: seq<D.Event>, n: nat, e: D.Event)
    requires ValidRun(xs) && n < |xs| && n < |es| && es[n] == e && Together(xs, es, n)
    requires Simulates(DiskAfter(xs[..n]), Logged(xs[..n]), StateAt(es, n), xs[n], n, e)
    ensures Together(xs, es, n + 1) && StateAt(es, n + 1) == D.Step(StateAt(es, n), e)
  {
    AfterNext(xs, n);
    StepUnmixed(DiskAfter(xs[..n]), Logged(xs[..n]), StateAt(es, n), xs[n], e);
    StateNext(es, n, e);
    D.StepStore(StateAt(es, n), e);
  }

  /** Along a run of the protocol that follows the inputs. */
  lemma {:induction false} FollowsTogether(xs: seq<Input>, es: seq<D.Event>, n: nat)
    requires ValidRun(xs) && Follows(xs, es) && n <= |xs|
    ensures Together(xs, es, n)
    ensures n < |xs| ==> Simulates(DiskAfter(xs[..n]), Logged(xs[..n]), StateAt(es, n), xs[n], n, es[n])
    decreases n
  {
    if n == 0 {
      TogetherStart(xs, es);
    } else {
      FollowsTogether(xs, es, n - 1);
      TogetherNext(xs, es, n - 1, es[n - 1]);
    }
    if n < |xs| {
      SimulatesAt(xs, es, n);
    }
  }

  lemma SimulatesAt(xs: seq<Input>, es: seq<D.Event>, n: nat)
    requires ValidRun(xs) && n < |es| == |xs| && MatchesAt(xs, es, n) && Together(xs, es, n)
    ensures Simulates(DiskAfter(xs[..n]), Logged(xs[..n]), StateAt(es, n), xs[n], n, es[n])
  {
    AfterNext(xs, n);
    var e := StepRefines(DiskAfter(xs[..n]), Logged(xs[..n]), StateAt(es, n), xs[n], n);
    MatchesOne(DiskAfter(xs[..n]), Logged(xs[..n]), StateAt(es, n), xs[n], e, es[n]);
  }

  lemma StateAtInit(es: seq<D.Event>, e: D.Event, j: nat)
    requires j <= |es|
    ensures StateAt(es + [e], j) == StateAt(es, j)
  {
    assert (es + [e])[..j] == es[..j];
  }

  lemma MatchesInit(xs: seq<Input>, n: nat, es: seq<D.Event>, e: D.Event, j: nat)
    requires |xs| == n + 1 && |es| == n && j < n && MatchesAt(xs[..n], es, j)
    ensures MatchesAt(xs, es + [e], j)
  {
    StateAtInit(es, e, j);
    assert xs[..n][..j] == xs[..j] && xs[..n][j] == xs[j] && (es + [e])[j] == es[j];
  }

  lemma ValidInit(xs: seq<Input>, n: nat)
    requires ValidRun(xs) && n <= |xs|
    ensures ValidRun(xs[..n])
  {
    forall j | 0 <= j < n ensures ValidAt(xs[..n], j) {
      assert ValidAt(xs, j);
      assert xs[..n][..j] == xs[..j];
    }
  }

  /** Every run on disk is the run of the protocol that belongs to its inputs. */
  lemma {:induction false} RunRefines(xs: seq<Input>) returns (es: seq<D.Event>)
    requires ValidRun(xs)
    ensures Follows(xs, es) && D.ValidRun(D.Init(LogFiles()), es)
    ensures Refines(DiskAfter(xs), Logged(xs), D.Run(D.Init(LogFiles()), es))
    decreases |xs|
  {
    if xs == [] {
      es := [];
      StartRefines();
    } else {
      var n := |xs| - 1;
      ValidInit(xs, n);
      var before := RunRefines(xs[..n]);
      es := FollowsOn(xs, n, before);
      FollowsTogether(xs, es, n + 1);
      assert xs[..n + 1] == xs && es[..n + 1] == es;
    }
  }

  lemma FollowsOn(xs: seq<Input>, n: nat, before: seq<D.Event>) returns (es: seq<D.Event>)
    requires ValidRun(xs) && |xs| == n + 1 && ValidRun(xs[..n]) && Follows(xs[..n], before)
    ensures Follows(xs, es)
  {
    FollowsTogether(xs[..n], before, n);
    assert xs[..n][..n] == xs[..n];
    AfterNext(xs, n);
    var e := StepRefines(DiskAfter(xs[..n]), Logged(xs[..n]), StateAt(before, n), xs[n], n);
    es := before + [e];
    StateAtInit(before, e, n);
    forall j | 0 <= j < |xs| ensures MatchesAt(xs, es, j) {
      if j < n {
        MatchesInit(xs, n, before, e, j);
      }
    }
  }

  // ----- What becomes of a message -----

  /** A message that comes in with a connection of the client open: written to it, or withheld from it. */
  ghost predicate Tells(d: Disk, recs: History, x: Input, at: nat, f: D.Fate, c: Client, t: Target, i: nat) {
    && x.Say? && Logs(d, x) && Kept(x) && x.target == t && i == |RecsOf(recs, t)|
    && (exists n | 0 <= n < |d.peers| ::
          d.peers[n].dc.client == c && f == if Forwards(d, d.peers[n].dc, x) then D.Queued else D.Withheld)
    && (f.Queued? ==> Live(at, c, t, x.rec.msg) in Step(d, x, at).out)
  }

  /** A batch with the message among all that load and are not withheld. */
  ghost predicate Sends(d: Disk, recs: History, x: Input, at: nat, p: nat, t: Target, i: nat)
    requires x.Join? && (t, x.dc.client) in d.ids
  {
    exists entries, qs ::
      && Backlog(at, x.dc.client, t, entries) in Step(d, x, at).out
      && Batches(d, x, t, RecsOf(recs, t), p, entries, qs) && i in qs
  }

  /** A message that is behind the cursor of a client that connects, and is sent its backlog. */
  ghost predicate Brings(d: Disk, recs: History, p: nat, x: Input, at: nat, f: D.Fate, c: Client, t: Target, i: nat) {
    && x.Join? && x.dc.client == c && Replays(d, x) && (t, c) in d.ids && PointsAt(RecsOf(recs, t), d.ids[(t, c)], p)
    && p <= i < |RecsOf(recs, t)| && f == FateOf(d, x, t, RecsOf(recs, t), p, i)
    && (f.Queued? ==> Sends(d, recs, x, at, p, t, i))
  }

  /** The handling of an input settles what becomes of a message for a client. */
  ghost predicate Settles(d: Disk, recs: History, s: D.State, x: Input, at: nat, f: D.Fate, c: Client, t: Target,
                          i: nat)
  {
    || Tells(d, recs, x, at, f, c, t, i)
    || ((t, c) in s.cursors && Brings(d, recs, s.cursors[(t, c)], x, at, f, c, t, i))
  }

  /** A decision that connecting adds is about an unread message. */
  lemma ConnectDecision(s: D.State, e: D.Event, f: D.Fate, c: Client, t: Target, i: nat)
    requires e.Connect? && D.Decision(f, c, t, i) !in s.trace && D.Decision(f, c, t, i) in D.DoConnect(s, e).trace
    ensures c == e.conn.client && !e.conn.chatHistory && D.First(s, c) && (t, c) in s.cursors
    ensures var l := D.LogOf(s.log, t); s.cursors[(t, c)] <= i < |l| && l[i].Chat()
    ensures f == D.ReplayFate(s, e, t, i)
  {
    var u :| u in D.TargetsOf(s.cursors, e.conn.client) && D.Decision(f, c, t, i) in D.ReplayDecisions(s, e, u);
  }

  lemma JoinSettles(d: Disk, recs: History, s: D.State, x: Input, at: nat, f: D.Fate, c: Client, t: Target, i: nat)
    requires Refines(d, recs, s) && x.Join? && D.Decision(f, c, t, i) !in s.trace
    requires D.Decision(f, c, t, i) in D.DoConnect(s, Connected(d, recs, s, x)).trace
    ensures Settles(d, recs, s, x, at, f, c, t, i)
  {
    ConnectDecision(s, Connected(d, recs, s, x), f, c, t, i);
    FirstIff(recs, d, s, c);
    FateIs(d, recs, s, x, t, i);
    var p, rs := s.cursors[(t, c)], RecsOf(recs, t);
    if f.Queued? {
      assert TargetAgrees(FilesOf(d.files, t), rs, D.LogOf(s.log, t));
      QueuedSends(d, recs, x, at, p, t, i);
    }
  }

  lemma QueuedSends(d: Disk, recs: History, x: Input, at: nat, p: nat, t: Target, i: nat)
    requires x.Join? && Replays(d, x) && (t, x.dc.client) in d.ids && i < |RecsOf(recs, t)|
    requires Stored(FilesOf(d.files, t), RecsOf(recs, t)) && Sound(RecsOf(recs, t))
    requires PointsAt(RecsOf(recs, t), d.ids[(t, x.dc.client)], p)
    requires FateOf(d, x, t, RecsOf(recs, t), p, i) == D.Queued
    ensures Sends(d, recs, x, at, p, t, i)
  {
    var entries, qs := JoinSends(d, x, at, t, RecsOf(recs, t), p);
    assert i in qs;
  }

  /** A decision that a message adds is about this message. */
  lemma ForwardDecision(s: D.State, e: D.Event, pos: nat, f: D.Fate, c: Client, t: Target, i: nat) returns (n: nat)
    requires e.Produce? && D.Decision(f, c, t, i) !in s.trace && D.Decision(f, c, t, i) in D.Forward(s, e, pos).trace
    ensures t == e.target && i == pos && n < |s.conns| && s.conns[n].client == c
    ensures f == if D.Forwards(s, s.conns[n], e) then D.Queued else D.Withheld
  {
    n :| 0 <= n < |s.conns| && D.LiveDecision(s, s.conns[n], e, pos) == D.Decision(f, c, t, i);
  }

  lemma ProduceDecision(s: D.State, e: D.Event, f: D.Fate, c: Client, t: Target, i: nat) returns (n: nat)
    requires e.Produce? && D.Decision(f, c, t, i) !in s.trace && D.Decision(f, c, t, i) in D.DoProduce(s, e).trace
    ensures D.Record(s, e).1 == Some(|D.LogOf(s.log, t)|) && t == e.target && i == |D.LogOf(s.log, t)|
    ensures n < |s.conns| && s.conns[n].client == c
    ensures f == if D.Forwards(s, s.conns[n], e) then D.Queued else D.Withheld
  {
    D.RecordTrace(s, e);
    var (s1, id) := D.Record(s, e);
    n := ForwardDecision(s1, e, id.value, f, c, t, i);
  }

  lemma RecordIff(d: Disk, recs: History, s: D.State, x: Input)
    requires IdsAgree(d.ids, recs, s.cursors) && x.Say?
    ensures D.Record(s, Produced(x)).1.Some? <==> Logs(d, x) && Kept(x)
  {
    NewIff(d, recs, s, x.target);
  }

  lemma TellOut(d: Disk, x: Input, at: nat, n: nat)
    requires x.Say? && n < |d.peers| && Forwards(d, d.peers[n].dc, x)
    ensures Live(at, d.peers[n].dc.client, x.target, x.rec.msg) in DoSay(d, x, at).out
  {
    var d1 := if New(d, x.target) then WithTarget(d, x.target, x.now) else d;
    assert d1.peers == d.peers && d1.detached == d.detached;
    assert Forwards(d1, d1.peers[n].dc, x);
  }

  lemma SaySettles(d: Disk, recs: History, s: D.State, x: Input, at: nat, f: D.Fate, c: Client, t: Target, i: nat)
    requires Refines(d, recs, s) && x.Say? && D.Decision(f, c, t, i) !in s.trace
    requires D.Decision(f, c, t, i) in D.DoProduce(s, Produced(x)).trace
    ensures Settles(d, recs, s, x, at, f, c, t, i)
  {
    var n := ProduceDecision(s, Produced(x), f, c, t, i);
    RecordIff(d, recs, s, x);
    assert TargetAgrees(FilesOf(d.files, t), RecsOf(recs, t), D.LogOf(s.log, t));
    assert PeerAgrees(recs, d.peers[n], s.conns[n]);
    assert Forwards(d, d.peers[n].dc, x) <==> D.Forwards(s, s.conns[n], Produced(x));
    if f.Queued? {
      TellOut(d, x, at, n);
    }
  }

  /** Whatever the protocol decides, the handling of the input settles. */
  lemma StepSettles(d: Disk, recs: History, s: D.State, x: Input, at: nat, e: D.Event, f: D.Fate, c: Client, t: Target,
                    i: nat)
    requires Refines(d, recs, s) && Matches(d, recs, s, x, e) && D.Enabled(s, e)
    requires D.Decision(f, c, t, i) !in s.trace && D.Decision(f, c, t, i) in D.Step(s, e).trace
    ensures Settles(d, recs, s, x, at, f, c, t, i)
  {
    match x
    case Say(_, _, _, _, _, _, _, _, _) => SaySettles(d, recs, s, x, at, f, c, t, i);
    case Join(_, _, _, _, _, _) => JoinSettles(d, recs, s, x, at, f, c, t, i);
    case _ =>
  }

  /** In a run, input `j` settles what becomes of a message for a client. */
  ghost predicate SettledAt(xs: seq<Input>, es: seq<D.Event>, j: nat, f: D.Fate, c: Client, t: Target, i: nat)
    requires |es| == |xs|
  {
    j < |xs| && Settles(DiskAfter(xs[..j]), Logged(xs[..j]), StateAt(es, j), xs[j], j, f, c, t, i)
  }

  lemma NothingAtStart(es: seq<D.Event>)
    ensures StateAt(es, 0).trace == {}
  {
    assert es[..0] == [];
  }

  lemma {:induction false} DecisionSettled(xs: seq<Input>, es: seq<D.Event>, n: nat, f: D.Fate, c: Client, t: Target,
                                           i: nat) returns (j: nat)
    requires ValidRun(xs) && Follows(xs, es) && n <= |xs| && D.Decision(f, c, t, i) in StateAt(es, n).trace
    ensures j < n && SettledAt(xs, es, j, f, c, t, i)
    decreases n
  {
    NothingAtStart(es);
    if D.Decision(f, c, t, i) in StateAt(es, n - 1).trace {
      j := DecisionSettled(xs, es, n - 1, f, c, t, i);
    } else {
      j := n - 1;
      FollowsTogether(xs, es, n - 1);
      TogetherNext(xs, es, n - 1, es[n - 1]);
      StepSettles(DiskAfter(xs[..j]), Logged(xs[..j]), StateAt(es, j), xs[j], j, es[j], f, c, t, i);
    }
  }

  // ----- Since when a client is owed messages -----

  /** No cursor was made, and none stored, before so many messages were logged. */
  ghost predicate BirthsSound(s: D.State) {
    && (forall k | k in s.birth :: s.birth[k] <= |D.LogOf(s.log, k.0)|)
    && (forall k | k in s.receiptBirth :: s.receiptBirth[k] <= |D.LogOf(s.log, k.0)|)
  }

  /** A cursor that was there when so many messages were logged, and what is stored of it. */
  ghost predicate BornBy(s: D.State, k: Key, i: nat) {
    k in s.cursors && k in s.birth && s.birth[k] <= i && (k in s.receiptBirth ==> s.receiptBirth[k] <= i)
  }

  lemma TargetBirths(s: D.State, t: Target)
    requires BirthsSound(s)
    ensures BirthsSound(D.WithTarget(s, t))
  {
  }

  lemma AppendBirths(s: D.State, t: Target, m: D.Message)
    requires BirthsSound(s)
    ensures BirthsSound(s.(log := D.Appended(s.log, t, m)))
  {
  }

  lemma RecordBirths(s: D.State, e: D.Event)
    requires e.Produce? && BirthsSound(s)
    ensures BirthsSound(D.Record(s, e).0)
  {
    TargetBirths(s, e.target);
    var s1 := if D.Introduces(s, e.target) then D.WithTarget(s, e.target) else s;
    AppendBirths(s1, e.target, e.msg);
    RecordIs(s, e, s1);
  }

  lemma RecordIs(s: D.State, e: D.Event, s1: D.State)
    requires e.Produce? && s1 == if D.Introduces(s, e.target) then D.WithTarget(s, e.target) else s
    ensures D.Record(s, e).0 == s || D.Record(s, e).0 == s1 ||
            D.Record(s, e).0 == s1.(log := D.Appended(s1.log, e.target, e.msg))
  {
  }

  lemma ProduceIs(s: D.State, e: D.Event)
    requires e.Produce?
    ensures var (s1, s') := (D.Record(s, e).0, D.DoProduce(s, e));
            && s'.birth == s1.birth && s'.receiptBirth == s1.receiptBirth
            && s'.log == s1.log && s'.cursors == s1.cursors
  {
  }

  lemma PongBirths(s: D.State, e: D.Event)
    requires e.Pong? && D.Enabled(s, e) && D.Inv(s) && BirthsSound(s)
    ensures BirthsSound(D.DoPong(s, e))
  {
    assert D.PingSound(s.trace, s.log, s.conns[e.index]);
    assert (e.target, e.pos) in s.conns[e.index].pinged;
  }

  lemma ConnectBirths(s: D.State, e: D.Event)
    requires e.Connect?
    ensures var s' := D.DoConnect(s, e);
            && s'.birth == s.birth && s'.receiptBirth == s.receiptBirth
            && s'.log == s.log && s'.cursors.Keys == s.cursors.Keys
  {
    CursorKeys(s, e);
  }

  lemma StepBirths(s: D.State, e: D.Event)
    requires D.Enabled(s, e) && D.Inv(s) && BirthsSound(s)
    ensures BirthsSound(D.Step(s, e))
  {
    match e
    case Produce(_, _, _, _, _, _) =>
      RecordBirths(s, e);
      ProduceIs(s, e);
    case Pong(_, _, _) => PongBirths(s, e);
    case Connect(_, _, _, _, _) => ConnectBirths(s, e);
    case _ =>
  }

  lemma SayBorn(s: D.State, e: D.Event, k: Key)
    requires e.Produce? && BirthsSound(s) && s.birth.Keys == s.cursors.Keys
    requires D.Record(s, e).1.Some? && k.0 == e.target && k in D.DoProduce(s, e).cursors
    ensures BornBy(D.DoProduce(s, e), k, |D.LogOf(s.log, k.0)|)
  {
    ProduceIs(s, e);
  }

  lemma ProduceBorn(s: D.State, e: D.Event, k: Key, i: nat)
    requires e.Produce? && BornBy(s, k, i) && s.birth.Keys == s.cursors.Keys
    ensures BornBy(D.DoProduce(s, e), k, i)
  {
    ProduceIs(s, e);
    if D.Introduces(s, e.target) {
      assert k in s.cursors.Keys && k.0 in D.Targets(s.cursors);
    }
  }

  lemma StepBorn(s: D.State, e: D.Event, k: Key, i: nat)
    requires D.Enabled(s, e) && D.Inv(s) && BornBy(s, k, i) && k in D.Step(s, e).cursors
    ensures BornBy(D.Step(s, e), k, i)
  {
    match e
    case Produce(_, _, _, _, _, _) => ProduceBorn(s, e, k, i);
    case Pong(_, _, _) => PongBorn(s, e, k, i);
    case Connect(_, _, _, _, _) => ConnectBirths(s, e);
    case Disconnect(_) => DisconnectBorn(s, e, k, i);
    case SetDetached(_, _) =>
    case Restart(_) => RestartBorn(s, e, k, i);
  }

  lemma PongBorn(s: D.State, e: D.Event, k: Key, i: nat)
    requires e.Pong? && e.index < |s.conns| && BornBy(s, k, i)
    ensures BornBy(D.DoPong(s, e), k, i)
  {
  }

  lemma DisconnectBorn(s: D.State, e: D.Event, k: Key, i: nat)
    requires e.Disconnect? && e.index < |s.conns| && BornBy(s, k, i)
    ensures BornBy(D.DoDisconnect(s, e), k, i)
  {
  }

  lemma RestartBorn(s: D.State, e: D.Event, k: Key, i: nat)
    requires e.Restart? && BornBy(s, k, i) && k in D.DoRestart(s, e).cursors && D.Inv(s)
    ensures BornBy(D.DoRestart(s, e), k, i)
  {
    assert k in s.cursors.Keys && k.1 in D.Clients(s.cursors);
  }

  lemma {:induction false} InvAt(xs: seq<Input>, es: seq<D.Event>, n: nat)
    requires ValidRun(xs) && Follows(xs, es) && n <= |xs|
    ensures D.Inv(StateAt(es, n)) && BirthsSound(StateAt(es, n))
    decreases n
  {
    if n == 0 {
      assert es[..0] == [];
    } else {
      InvAt(xs, es, n - 1);
      FollowsTogether(xs, es, n);
      FollowsTogether(xs, es, n - 1);
      TogetherNext(xs, es, n - 1, es[n - 1]);
      D.RunKeeps(D.Init(LogFiles()), es[..n]);
      StepBirths(StateAt(es, n - 1), es[n - 1]);
    }
  }

  // ----- What is logged, and what is written, stays -----

  lemma SaidGrows(d: Disk, recs: History, x: Input)
    ensures Grows(recs, Said(d, recs, x))
  {
  }

  lemma LoggedNext(xs: seq<Input>, n: nat)
    requires ValidRun(xs) && n < |xs|
    ensures Grows(Logged(xs[..n]), Logged(xs[..n + 1]))
  {
    AfterNext(xs, n);
    SaidGrows(DiskAfter(xs[..n]), Logged(xs[..n]), xs[n]);
  }

  lemma {:induction false} AllGrow(logged: nat -> History, a: nat, b: nat)
    requires a <= b && forall n: nat | a <= n < b :: Grows(logged(n), logged(n + 1))
    ensures Grows(logged(a), logged(b))
    decreases b - a
  {
    if a < b {
      AllGrow(logged, a, b - 1);
      GrowsOn(logged(a), logged(b - 1), logged(b));
    }
  }

  lemma LoggedGrows(xs: seq<Input>, a: nat, b: nat)
    requires ValidRun(xs) && a <= b <= |xs|
    ensures Grows(Logged(xs[..a]), Logged(xs[..b]))
  {
    var logged := (n: nat) => if n <= |xs| then Logged(xs[..n]) else map[];
    forall n: nat | a <= n < b ensures Grows(logged(n), logged(n + 1)) {
      LoggedNext(xs, n);
    }
    AllGrow(logged, a, b);
  }

  lemma GrowsOn(a: History, b: History, c: History)
    requires Grows(a, b) && Grows(b, c)
    ensures Grows(a, c)
  {
    forall t: Target ensures RecsOf(a, t) <= RecsOf(c, t) {
      assert RecsOf(a, t) <= RecsOf(b, t) <= RecsOf(c, t);
    }
  }

  lemma StepOut(d: Disk, x: Input, at: nat)
    ensures d.out <= Step(d, x, at).out
  {
  }

  lemma OutNext(xs: seq<Input>, n: nat)
    requires ValidRun(xs) && n < |xs|
    ensures DiskAfter(xs[..n]).out <= DiskAfter(xs[..n + 1]).out
  {
    AfterNext(xs, n);
    StepOut(DiskAfter(xs[..n]), xs[n], n);
  }

  lemma {:induction false} AllStay(out: nat -> set<Written>, a: nat, b: nat)
    requires a <= b && forall n: nat | a <= n < b :: out(n) <= out(n + 1)
    ensures out(a) <= out(b)
    decreases b - a
  {
    if a < b {
      AllStay(out, a, b - 1);
      assert out(b - 1) <= out(b);
    }
  }

  lemma OutGrows(xs: seq<Input>, a: nat, b: nat)
    requires ValidRun(xs) && a <= b <= |xs|
    ensures DiskAfter(xs[..a]).out <= DiskAfter(xs[..b]).out
  {
    var out := (n: nat) => if n <= |xs| then DiskAfter(xs[..n]).out else {};
    forall n: nat | a <= n < b ensures out(n) <= out(n + 1) {
      OutNext(xs, n);
    }
    AllStay(out, a, b);
  }

  /** Input `m` is a PRIVMSG or NOTICE that is logged. */
  ghost predicate Chats(xs: seq<Input>, m: nat) {
    && m < |xs| && xs[m].Say? && Logs(DiskAfter(xs[..m]), xs[m]) && Kept(xs[m]) && Talk()(xs[m].rec)
  }

  /** Where it is logged. */
  function PlaceOf(xs: seq<Input>, m: nat): nat
    requires m < |xs| && xs[m].Say?
  {
    |RecsOf(Logged(xs[..m]), xs[m].target)|
  }

  /** The client has an ID on the target from then on. */
  ghost predicate Held(xs: seq<Input>, m: nat, k: Key) {
    forall j: nat | m < j <= |xs| :: HasID(xs, j, k)
  }

  predicate HasID(xs: seq<Input>, j: nat, k: Key)
    requires j <= |xs|
  {
    k in DiskAfter(xs[..j]).ids
  }

  lemma PlacedAt(xs: seq<Input>, m: nat, n: nat)
    requires ValidRun(xs) && Chats(xs, m) && m < n <= |xs|
    ensures var rs, i := RecsOf(Logged(xs[..n]), xs[m].target), PlaceOf(xs, m); i < |rs| && rs[i] == xs[m].rec
  {
    var t := xs[m].target;
    AfterNext(xs, m);
    var rs := RecsOf(Logged(xs[..m + 1]), t);
    assert rs == RecsOf(Logged(xs[..m]), t) + [xs[m].rec];
    LoggedGrows(xs, m + 1, n);
    assert rs <= RecsOf(Logged(xs[..n]), t);
  }

  lemma NotYetPlaced(xs: seq<Input>, m: nat, n: nat)
    requires ValidRun(xs) && m < |xs| && xs[m].Say? && n <= m
    ensures |RecsOf(Logged(xs[..n]), xs[m].target)| <= PlaceOf(xs, m)
  {
    LoggedGrows(xs, n, m);
    assert RecsOf(Logged(xs[..n]), xs[m].target) <= RecsOf(Logged(xs[..m]), xs[m].target);
  }

  // ----- The guarantee -----

  lemma BornFirst(d: Disk, recs: History, s: D.State, x: Input, at: nat, e: D.Event, k: Key)
    requires Refines(d, recs, s) && D.Inv(s) && BirthsSound(s) && x.Say? && Logs(d, x) && Kept(x) && k.0 == x.target
    requires Simulates(d, recs, s, x, at, e) && k in Step(d, x, at).ids
    ensures BornBy(D.Step(s, e), k, |RecsOf(recs, k.0)|)
  {
    RecordIff(d, recs, s, x);
    assert TargetAgrees(FilesOf(d.files, k.0), RecsOf(recs, k.0), D.LogOf(s.log, k.0));
    SayBorn(s, e, k);
  }

  lemma BornNext(d: Disk, recs: History, s: D.State, x: Input, at: nat, e: D.Event, k: Key, i: nat)
    requires D.Inv(s) && Simulates(d, recs, s, x, at, e) && k in Step(d, x, at).ids && BornBy(s, k, i)
    ensures BornBy(D.Step(s, e), k, i)
  {
    StepBorn(s, e, k, i);
  }

  lemma HeldFirst(xs: seq<Input>, es: seq<D.Event>, m: nat, k: Key)
    requires ValidRun(xs) && Follows(xs, es) && Chats(xs, m) && k.0 == xs[m].target && HasID(xs, m + 1, k)
    ensures BornBy(StateAt(es, m + 1), k, PlaceOf(xs, m))
  {
    FollowsTogether(xs, es, m);
    TogetherNext(xs, es, m, es[m]);
    InvAt(xs, es, m);
    AfterNext(xs, m);
    BornFirst(DiskAfter(xs[..m]), Logged(xs[..m]), StateAt(es, m), xs[m], m, es[m], k);
  }

  lemma HeldNext(xs: seq<Input>, es: seq<D.Event>, j: nat, k: Key, i: nat)
    requires ValidRun(xs) && Follows(xs, es) && j < |xs| && HasID(xs, j + 1, k) && BornBy(StateAt(es, j), k, i)
    ensures BornBy(StateAt(es, j + 1), k, i)
  {
    FollowsTogether(xs, es, j);
    TogetherNext(xs, es, j, es[j]);
    InvAt(xs, es, j);
    AfterNext(xs, j);
    BornNext(DiskAfter(xs[..j]), Logged(xs[..j]), StateAt(es, j), xs[j], j, es[j], k, i);
  }

  lemma {:induction false} HeldBorn(xs: seq<Input>, es: seq<D.Event>, m: nat, k: Key, i: nat, n: nat)
    requires ValidRun(xs) && Follows(xs, es) && Held(xs, m, k) && m < n <= |xs| && BornBy(StateAt(es, m + 1), k, i)
    ensures BornBy(StateAt(es, n), k, i)
    decreases n
  {
    if n > m + 1 {
      HeldBorn(xs, es, m, k, i, n - 1);
      assert HasID(xs, n, k);
      HeldNext(xs, es, n - 1, k, i);
    }
  }

  lemma Fated(trace: set<D.Decision>, c: Client, t: Target, i: nat) returns (f: D.Fate)
    requires D.Decided(trace, c, t, i)
    ensures D.Decision(f, c, t, i) in trace
  {
    f :| D.Decision(f, c, t, i) in trace;
  }

  lemma BornDecided(d: Disk, recs: History, s: D.State, k: Key, i: nat)
    requires Refines(d, recs, s) && D.AllDecided(s) && BornBy(s, k, i) && PlainPeer(d.peers, k.1)
    requires i < |RecsOf(recs, k.0)| && Talk()(RecsOf(recs, k.0)[i])
    ensures D.Decided(s.trace, k.1, k.0, i)
  {
    PlainIff(recs, d.peers, s.conns, k.1);
    assert TargetAgrees(FilesOf(d.files, k.0), RecsOf(recs, k.0), D.LogOf(s.log, k.0));
    assert D.Covered(s.trace, D.LogOf(s.log, k.0), k.1, k.0, s.birth[k], |D.LogOf(s.log, k.0)|);
  }

  lemma BornDecidedAt(xs: seq<Input>, es: seq<D.Event>, k: Key, i: nat, r: Rec)
    requires ValidRun(xs) && Follows(xs, es) && BornBy(StateAt(es, |xs|), k, i) && PlainPeer(DiskAfter(xs).peers, k.1)
    requires i < |RecsOf(Logged(xs), k.0)| && RecsOf(Logged(xs), k.0)[i] == r && Talk()(r)
    ensures D.Decided(StateAt(es, |xs|).trace, k.1, k.0, i)
  {
    assert xs[..|xs|] == xs;
    InvAt(xs, es, |xs|);
    FollowsTogether(xs, es, |xs|);
    BornDecided(DiskAfter(xs), Logged(xs), StateAt(es, |xs|), k, i);
  }

  lemma HeldDecided(xs: seq<Input>, es: seq<D.Event>, m: nat, c: Client)
    requires ValidRun(xs) && Follows(xs, es) && Chats(xs, m) && Held(xs, m, (xs[m].target, c))
    requires PlainPeer(DiskAfter(xs).peers, c)
    ensures D.Decided(StateAt(es, |xs|).trace, c, xs[m].target, PlaceOf(xs, m))
  {
    HeldToEnd(xs, es, m, (xs[m].target, c));
    PlacedAt(xs, m, |xs|);
    assert xs[..|xs|] == xs;
    BornDecidedAt(xs, es, (xs[m].target, c), PlaceOf(xs, m), xs[m].rec);
  }

  lemma HeldToEnd(xs: seq<Input>, es: seq<D.Event>, m: nat, k: Key)
    requires ValidRun(xs) && Follows(xs, es) && Chats(xs, m) && k.0 == xs[m].target && Held(xs, m, k)
    ensures BornBy(StateAt(es, |xs|), k, PlaceOf(xs, m))
  {
    assert HasID(xs, m + 1, k);
    HeldFirst(xs, es, m, k);
    HeldBorn(xs, es, m, k, PlaceOf(xs, m), |xs|);
  }

  /** Where a message stands when it is settled. */
  lemma SettlesPlace(d: Disk, recs: History, s: D.State, x: Input, at: nat, f: D.Fate, c: Client, t: Target, i: nat)
    requires Settles(d, recs, s, x, at, f, c, t, i)
    ensures x.Say? ==> x.target == t && i == |RecsOf(recs, t)| && i < |RecsOf(Said(d, recs, x), t)|
    ensures !x.Say? ==> i < |RecsOf(recs, t)|
  {
  }

  lemma SettledLater(xs: seq<Input>, es: seq<D.Event>, m: nat, j: nat, f: D.Fate, c: Client)
    requires ValidRun(xs) && |es| == |xs| && Chats(xs, m)
    requires SettledAt(xs, es, j, f, c, xs[m].target, PlaceOf(xs, m))
    ensures if xs[j].Say? then j == m else m < j
  {
    var t, i := xs[m].target, PlaceOf(xs, m);
    SettlesPlace(DiskAfter(xs[..j]), Logged(xs[..j]), StateAt(es, j), xs[j], j, f, c, t, i);
    AfterNext(xs, j);
    if j < m {
      NotYetPlaced(xs, m, j);
      NotYetPlaced(xs, m, j + 1);
    } else if j > m {
      PlacedAt(xs, m, j);
    }
  }

  lemma WrittenStays(xs: seq<Input>, j: nat)
    requires ValidRun(xs) && j < |xs|
    ensures Step(DiskAfter(xs[..j]), xs[j], j).out <= DiskAfter(xs).out
  {
    AfterNext(xs, j);
    OutGrows(xs, j + 1, |xs|);
    assert xs[..|xs|] == xs;
  }

  /**
   At-least-once delivery on log files, over every run. Take a logged PRIVMSG or NOTICE, and a client name that has had
   an ID on its target ever since and a backlog connection at the end. Then one of the inputs has settled what becomes
   of it: the message itself, with a connection of the name open, was written to it or withheld from it; or at a connect
   with the message behind the cursor it was written in a batch with all that load, withheld, unreadable, too old, or
   did not load. What was written is in the output for good.
   */
  lemma DeliveredFromDisk(xs: seq<Input>, m: nat, c: Client) returns (es: seq<D.Event>, j: nat, f: D.Fate)
    requires ValidRun(xs) && Chats(xs, m) && Held(xs, m, (xs[m].target, c)) && PlainPeer(DiskAfter(xs).peers, c)
    ensures Follows(xs, es) && SettledAt(xs, es, j, f, c, xs[m].target, PlaceOf(xs, m))
    ensures if xs[j].Say? then j == m else m < j
    ensures Step(DiskAfter(xs[..j]), xs[j], j).out <= DiskAfter(xs).out
  {
    es := RunRefines(xs);
    HeldDecided(xs, es, m, c);
    f := Fated(StateAt(es, |xs|).trace, c, xs[m].target, PlaceOf(xs, m));
    j := DecisionSettled(xs, es, |xs|, f, c, xs[m].target, PlaceOf(xs, m));
    SettledLater(xs, es, m, j, f, c);
    WrittenStays(xs, j);
  }
}
