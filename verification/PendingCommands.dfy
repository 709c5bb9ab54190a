/**
 Pending upstream commands. Some commands have replies that do not say who asked, so the bouncer keeps one
 queue per command, sends only its first entry, and attributes the next final reply to that entry.
 */
module PendingCommands {
  import opened Text

  datatype Message = Message(command: string, params: seq<string>)

  datatype Pending = Pending(downstreamID: nat, downstreamLabel: string, msg: Message, sentAt: Option<int>)

  const SUPPORTED := {"LIST", "WHO", "WHOIS", "AUTHENTICATE", "REGISTER", "VERIFY"}

  /** Thirty seconds, in nanoseconds. */
  const TIMEOUT := 30_000_000_000

  // ----- One queue -----

  /** The entries of one queue, and what was sent to the server from it so far. */
  datatype Lane = Lane(queue: seq<Pending>, sent: seq<Pending>)

  predicate TimedOut(p: Pending, now: int) {
    p.sentAt.Some? && now - p.sentAt.value > TIMEOUT
  }

  function CountTimedOut(q: seq<Pending>, now: int): (n: nat)
    ensures n <= |q|
  {
    if q == [] || !TimedOut(q[0], now) then 0 else 1 + CountTimedOut(q[1..], now)
  }

  /** Moving all but the first `n` entries to the front in place: the length stays, so the last `n` remain. */
  function Shift(q: seq<Pending>, n: nat): seq<Pending>
    requires n <= |q|
  {
    q[n..] + q[|q| - n..]
  }

  function SendFirst(l: Lane, now: int): Lane {
    if l.queue == [] then l
    else Lane([l.queue[0].(sentAt := Some(now))] + l.queue[1..], l.sent + [l.queue[0]])
  }

  function Enqueue(l: Lane, p: Pending, now: int): Lane {
    var q := l.queue + [p];
    var shifted := l.(queue := Shift(q, CountTimedOut(q, now)));
    if |q| == 1 then SendFirst(shifted, now) else shifted
  }

  function Dequeue(l: Lane, now: int): Lane {
    if l.queue == [] then l else SendFirst(l.(queue := l.queue[1..]), now)
  }

  function Others(q: seq<Pending>, id: nat): seq<Pending> {
    if q == [] then []
    else
      var rest := Others(q[1..], id);
      if q[0].downstreamID == id then rest else [q[0]] + rest
  }

  function Cancel(l: Lane, id: nat): Lane {
    if l.queue == [] then l else l.(queue := [l.queue[0]] + Others(l.queue[1..], id))
  }

  /** The first entry is with the server, and no other. */
  predicate HeadSent(l: Lane) {
    l.queue != [] ==> l.queue[0].sentAt.Some? && forall p <- l.queue[1..] :: p.sentAt.None?
  }

  /** The entry with the server has been there for too long. */
  predicate Stale(l: Lane, now: int) {
    l.queue != [] && TimedOut(l.queue[0], now)
  }

  /** What an enqueue after a timeout does: the last entry is doubled, nothing is sent. */
  lemma StaleEnqueue(l: Lane, p: Pending, now: int)
    requires HeadSent(l) && p.sentAt.None? && Stale(l, now)
    ensures Enqueue(l, p, now) == Lane(l.queue[1..] + [p, p], l.sent)
  {
    var q := l.queue + [p];
    assert q[1..] == l.queue[1..] + [p];
    assert q[1].sentAt.None? by {
      assert |l.queue| > 1 ==> q[1] == l.queue[1..][0];
    }
    assert CountTimedOut(q[1..], now) == 0;
    assert CountTimedOut(q, now) == 1;
    assert q[|q| - 1..] == [p];
  }

  lemma TimelyEnqueue(l: Lane, p: Pending, now: int)
    requires HeadSent(l) && p.sentAt.None? && !Stale(l, now)
    ensures Enqueue(l, p, now) ==
            if l.queue == [] then Lane([p.(sentAt := Some(now))], l.sent + [p]) else Lane(l.queue + [p], l.sent)
  {
    var q := l.queue + [p];
    assert CountTimedOut(q, now) == 0;
    assert Shift(q, 0) == q;
    assert [p][1..] == [];
  }

  /** The queue discipline survives an enqueue exactly if no timeout has come up. */
  lemma EnqueueIff(l: Lane, p: Pending, now: int)
    requires HeadSent(l) && p.sentAt.None?
    ensures HeadSent(Enqueue(l, p, now)) <==> !Stale(l, now)
  {
    if Stale(l, now) {
      StaleEnqueue(l, p, now);
      assert |l.queue| > 1 ==> (l.queue[1..] + [p, p])[0] == l.queue[1..][0];
    } else {
      TimelyEnqueue(l, p, now);
      if l.queue != [] {
        assert (l.queue + [p])[1..] == l.queue[1..] + [p];
      }
    }
  }

  // ----- Runs -----

  /** Something that happens on the upstream connection. */
  datatype Event =
    | Asked(p: Pending, now: int)
    | Replied(command: string, now: int)
    | Left(id: nat)

  function Step(l: Lane, command: string, e: Event): Lane {
    match e
    case Asked(p, now) => if p.msg.command == command then Enqueue(l, p, now) else l
    case Replied(c, now) => if c == command then Dequeue(l, now) else l
    case Left(id) => Cancel(l, id)
  }

  function Run(command: string, es: seq<Event>): Lane {
    if es == [] then Lane([], [])
    else Step(Run(command, es[..|es| - 1]), command, es[|es| - 1])
  }

  predicate Timely(l: Lane, command: string, e: Event) {
    e.Asked? ==> e.p.sentAt.None? && (e.p.msg.command == command ==> !Stale(l, e.now))
  }

  /** No command is asked while an earlier one of its kind has been out for too long. */
  predicate TimelyRun(command: string, es: seq<Event>) {
    es == [] ||
    (TimelyRun(command, es[..|es| - 1]) && Timely(Run(command, es[..|es| - 1]), command, es[|es| - 1]))
  }

  /** No entry is with the server, although some are waiting. */
  ghost predicate Stuck(l: Lane) {
    l.queue != [] && forall p <- l.queue :: p.sentAt.None?
  }

  /** Nothing but a reply gets a queue in this state to move. */
  lemma StuckStep(l: Lane, command: string, e: Event)
    requires Stuck(l) && (e.Asked? ==> e.p.sentAt.None?) && !(e.Replied? && e.command == command)
    ensures Stuck(Step(l, command, e)) && Step(l, command, e).sent == l.sent
  {
    match e
    case Asked(p, now) =>
      var q := l.queue + [p];
      assert q[0] == l.queue[0] && l.queue[0] in l.queue;
      assert CountTimedOut(q, now) == 0 && Shift(q, 0) == q;
    case Replied(_, _) =>
    case Left(id) => OthersIn(l.queue[1..], id);
  }

  lemma {:induction false} StuckRun(command: string, es: seq<Event>, more: seq<Event>)
    requires Stuck(Run(command, es)) && forall e <- more :: e.Asked? ==> e.p.sentAt.None?
    requires forall e <- more :: !(e.Replied? && e.command == command)
    ensures Stuck(Run(command, es + more)) && Run(command, es + more).sent == Run(command, es).sent
    decreases more
  {
    if more == [] {
      assert es + more == es;
    } else {
      var n := |more| - 1;
      assert (es + more)[..|es + more| - 1] == es + more[..n];
      StuckRun(command, es, more[..n]);
      assert more[n] in more;
      StuckStep(Run(command, es + more[..n]), command, more[n]);
    }
  }

  /**
   A command that is asked while an earlier one has been out for too long stops its queue: whatever else is asked and
   whoever leaves, nothing of the kind is sent until the server replies to one. That reply is then taken for one to an
   entry that has not been sent.
   */
  lemma TimeoutStops(command: string, es: seq<Event>, p: Pending, now: int, more: seq<Event>)
    requires HeadSent(Run(command, es)) && Stale(Run(command, es), now) && p.msg.command == command && p.sentAt.None?
    requires forall e <- more :: (e.Asked? ==> e.p.sentAt.None?) && !(e.Replied? && e.command == command)
    ensures var l := Run(command, es + [Asked(p, now)] + more);
            Stuck(l) && l.sent == Run(command, es).sent
  {
    var first := es + [Asked(p, now)];
    assert first[..|first| - 1] == es;
    StaleEnqueue(Run(command, es), p, now);
    StuckRun(command, first, more);
  }

  // ----- The reference: one ordered list -----

  /** Commands in the order they go out, and how many of them have been answered. */
  datatype Order = Order(all: seq<Pending>, answered: nat)

  function Out(o: Order): nat {
    if o.answered < |o.all| then o.answered + 1 else |o.all|
  }

  function Follow(o: Order, command: string, e: Event): Order {
    match e
    case Asked(p, now) => if p.msg.command == command then o.(all := o.all + [p]) else o
    case Replied(c, now) => if c == command && o.answered < |o.all| then o.(answered := o.answered + 1) else o
    case Left(id) => o.(all := o.all[..Out(o)] + Others(o.all[Out(o)..], id))
  }

  function Trail(command: string, es: seq<Event>): Order {
    if es == [] then Order([], 0)
    else Follow(Trail(command, es[..|es| - 1]), command, es[|es| - 1])
  }

  /** An entry as it was asked. */
  function Bare(p: Pending): Pending {
    p.(sentAt := None)
  }

  function BareAll(q: seq<Pending>): seq<Pending> {
    seq(|q|, i requires 0 <= i < |q| => Bare(q[i]))
  }

  /** The queue is the unanswered part of the order, and what was sent is the part before it and its first entry. */
  ghost predicate Follows(l: Lane, o: Order) {
    && HeadSent(l) && o.answered <= |o.all|
    && BareAll(l.queue) == o.all[o.answered..]
    && l.sent == o.all[..Out(o)]
    && forall p <- o.all :: p.sentAt.None?
  }

  lemma {:induction false} OthersBare(q: seq<Pending>, id: nat)
    requires forall p <- q :: p.sentAt.None?
    ensures BareAll(q) == q && forall p <- Others(q, id) :: p in q
  {
    forall i | 0 <= i < |q| ensures Bare(q[i]) == q[i] {
      assert q[i] in q;
    }
    OthersIn(q, id);
  }

  lemma {:induction false} OthersIn(q: seq<Pending>, id: nat)
    ensures forall p <- Others(q, id) :: p in q
  {
    if q != [] {
      OthersIn(q[1..], id);
    }
  }

  lemma AskedFollows(l: Lane, o: Order, p: Pending, now: int)
    requires Follows(l, o) && p.sentAt.None? && !Stale(l, now)
    ensures Follows(Enqueue(l, p, now), o.(all := o.all + [p]))
  {
    EnqueueIff(l, p, now);
    TimelyEnqueue(l, p, now);
    var a := o.all + [p];
    assert |l.queue| == |o.all| - o.answered;
    assert a[o.answered..] == o.all[o.answered..] + [p];
    assert BareAll(l.queue + [p]) == BareAll(l.queue) + [p];
    if l.queue == [] {
      assert a[..|a|] == a && o.all[..|o.all|] == o.all;
    } else {
      assert a[..o.answered + 1] == o.all[..o.answered + 1];
    }
  }

  lemma RepliedFollows(l: Lane, o: Order, now: int)
    requires Follows(l, o) && l.queue != []
    ensures o.answered < |o.all| && Bare(l.queue[0]) == o.all[o.answered]
    ensures Follows(Dequeue(l, now), o.(answered := o.answered + 1))
  {
    assert |BareAll(l.queue)| == |l.queue| && BareAll(l.queue)[0] == Bare(l.queue[0]);
    var rest := l.queue[1..];
    var n := o.answered + 1;
    assert BareAll(rest) == BareAll(l.queue)[1..] == o.all[n..];
    if rest != [] {
      assert rest[0] in rest && Bare(rest[0]) == rest[0] && BareAll(rest)[0] == rest[0];
      assert o.all[n] == rest[0];
      assert o.all[..n] + [o.all[n]] == o.all[..n + 1];
      var sent := [rest[0].(sentAt := Some(now))] + rest[1..];
      assert sent[1..] == rest[1..];
      assert BareAll(sent) == BareAll(rest);
    }
  }

  lemma LeftFollows(l: Lane, o: Order, id: nat)
    requires Follows(l, o)
    ensures Follows(Cancel(l, id), o.(all := o.all[..Out(o)] + Others(o.all[Out(o)..], id)))
  {
    assert |BareAll(l.queue)| == |l.queue|;
    if l.queue == [] {
      assert o.all[..|o.all|] == o.all && o.all[|o.all|..] == [];
    } else {
      var n := o.answered;
      var tail := l.queue[1..];
      assert BareAll(l.queue)[0] == Bare(l.queue[0]);
      OthersBare(tail, id);
      assert tail == BareAll(l.queue)[1..] == o.all[n + 1..];
      var others := Others(tail, id);
      assert ([l.queue[0]] + others)[1..] == others;
      BareHead(l.queue[0], others);
      var all := o.all[..n + 1] + others;
      assert all[n..] == [o.all[n]] + others;
      assert all[..n + 1] == o.all[..n + 1];
      assert forall p <- o.all[..n + 1] :: p in o.all;
    }
  }

  lemma BareHead(p: Pending, q: seq<Pending>)
    requires forall x <- q :: x.sentAt.None?
    ensures BareAll([p] + q) == [Bare(p)] + q
  {
    forall i | 0 <= i < |q| ensures Bare(q[i]) == q[i] {
      assert q[i] in q;
    }
  }

  /** Every timely run keeps to the order: first come, first sent, one at a time. */
  lemma {:induction false} RunFollows(command: string, es: seq<Event>)
    requires TimelyRun(command, es)
    ensures Follows(Run(command, es), Trail(command, es))
  {
    if es != [] {
      var before, e := es[..|es| - 1], es[|es| - 1];
      RunFollows(command, before);
      var l, o := Run(command, before), Trail(command, before);
      assert (l.queue == []) <==> o.answered == |o.all| by {
        assert |BareAll(l.queue)| == |l.queue|;
      }
      match e
      case Asked(p, now) =>
        if p.msg.command == command {
          AskedFollows(l, o, p, now);
        }
      case Replied(c, now) =>
        if c == command && l.queue != [] {
          RepliedFollows(l, o, now);
        }
      case Left(id) =>
        LeftFollows(l, o, id);
    }
  }

  /** The k-th final reply is attributed to the command that was sent as the k-th. */
  lemma ReplyToSender(command: string, es: seq<Event>)
    requires TimelyRun(command, es) && Run(command, es).queue != []
    ensures var l, k := Run(command, es), Trail(command, es).answered;
            |l.sent| == k + 1 && Bare(l.queue[0]) == l.sent[k]
  {
    RunFollows(command, es);
    RepliedFollows(Run(command, es), Trail(command, es), 0);
  }

  // ----- Who is left out, and who is not -----

  function AskedBy(q: seq<Pending>, id: nat): seq<Pending> {
    if q == [] then []
    else
      var rest := AskedBy(q[..|q| - 1], id);
      if q[|q| - 1].downstreamID == id then rest + [q[|q| - 1]] else rest
  }

  /** Everything ever asked of a kind. */
  function AllAsked(command: string, es: seq<Event>): seq<Pending> {
    if es == [] then []
    else
      var rest, e := AllAsked(command, es[..|es| - 1]), es[|es| - 1];
      if e.Asked? && e.p.msg.command == command then rest + [e.p] else rest
  }

  lemma {:induction false} AskedByConcat(a: seq<Pending>, b: seq<Pending>, id: nat)
    ensures AskedBy(a + b, id) == AskedBy(a, id) + AskedBy(b, id)
  {
    if b == [] {
      assert a + b == a;
    } else {
      var n := |b| - 1;
      assert (a + b)[..|a + b| - 1] == a + b[..n];
      AskedByConcat(a, b[..n], id);
      Assoc(AskedBy(a, id), AskedBy(b[..n], id), [b[n]]);
    }
  }

  lemma {:induction false} OthersAsked(q: seq<Pending>, gone: nat, id: nat)
    requires gone != id
    ensures AskedBy(Others(q, gone), id) == AskedBy(q, id)
  {
    if q != [] {
      OthersAsked(q[1..], gone, id);
      assert q == [q[0]] + q[1..];
      AskedByConcat([q[0]], q[1..], id);
      AskedByConcat([q[0]], Others(q[1..], gone), id);
      assert q[0].downstreamID == gone ==> AskedBy([q[0]], id) == [];
    }
  }

  lemma LeavingKeeps(o: Order, gone: nat, id: nat)
    requires gone != id
    ensures AskedBy(o.all[..Out(o)] + Others(o.all[Out(o)..], gone), id) == AskedBy(o.all, id)
  {
    var out, waiting := o.all[..Out(o)], o.all[Out(o)..];
    OthersAsked(waiting, gone, id);
    AskedByConcat(out, Others(waiting, gone), id);
    AskedByConcat(out, waiting, id);
    assert out + waiting == o.all;
  }

  lemma AskingKeeps(a: seq<Pending>, b: seq<Pending>, p: Pending, id: nat)
    requires AskedBy(a, id) == AskedBy(b, id)
    ensures AskedBy(a + [p], id) == AskedBy(b + [p], id)
  {
    AskedByConcat(a, [p], id);
    AskedByConcat(b, [p], id);
  }

  /** A client that does not leave has all its commands in the order, in the order it asked. */
  lemma {:induction false} NothingLost(command: string, es: seq<Event>, id: nat)
    requires Left(id) !in es
    ensures AskedBy(Trail(command, es).all, id) == AskedBy(AllAsked(command, es), id)
  {
    if es != [] {
      var before, e := es[..|es| - 1], es[|es| - 1];
      NothingLost(command, before, id);
      var o := Trail(command, before);
      match e
      case Asked(p, _) => AskingKeeps(o.all, AllAsked(command, before), p, id);
      case Replied(_, _) =>
      case Left(gone) =>
        assert e in es;
        LeavingKeeps(o, gone, id);
    }
  }

  /** What has been sent is never taken back, by a client leaving or otherwise. */
  lemma SentStays(command: string, es: seq<Event>, e: Event)
    requires TimelyRun(command, es + [e])
    ensures Run(command, es).sent <= Run(command, es + [e]).sent
  {
    assert (es + [e])[..|es|] == es;
    RunFollows(command, es);
    if e.Asked? && e.p.msg.command == command {
      TimelyEnqueue(Run(command, es), e.p, e.now);
    }
  }

  // ----- The connection -----

  function OfKind(wire: seq<Pending>, command: string): seq<Pending> {
    if wire == [] then []
    else
      var rest, p := OfKind(wire[..|wire| - 1], command), wire[|wire| - 1];
      if p.msg.command == command then rest + [p] else rest
  }

  /** Whom a reply is for: the client of the first entry, unless it has left, and the message. */
  function Addressee(q: seq<Pending>, conns: seq<nat>): (Option<nat>, Option<Message>) {
    if q == [] then (None, None)
    else (if q[0].downstreamID in conns then Some(q[0].downstreamID) else None, Some(q[0].msg))
  }

  method DownstreamByID(conns: seq<nat>, id: nat) returns (dc: Option<nat>)
    ensures dc == if id in conns then Some(id) else None
  {
    for i := 0 to |conns|
      invariant id !in conns[..i]
    {
      if conns[i] == id {
        return Some(id);
      }
    }
    return None;
  }

  class Upstream {
    var pendingCmds: map<string, seq<Pending>>
    // Everything sent to the server from the queues.
    var wire: seq<Pending>

    constructor ()
      ensures Valid() && forall command :: LaneOf(command) == Lane([], [])
    {
      pendingCmds, wire := map[], [];
    }

    predicate Valid()
      reads this
    {
      forall command <- pendingCmds :: forall p <- pendingCmds[command] :: p.msg.command == command
    }

    function QueueOf(command: string): seq<Pending>
      reads this
    {
      if command in pendingCmds then pendingCmds[command] else []
    }

    function LaneOf(command: string): Lane
      reads this
    {
      Lane(QueueOf(command), OfKind(wire, command))
    }

    method SendNextPendingCommand(command: string, now: int)
      requires Valid()
      modifies this
      ensures Valid() &&
              forall k :: LaneOf(k) == if k == command then SendFirst(old(LaneOf(k)), now) else old(LaneOf(k))
    {
      var q := QueueOf(command);
      if |q| == 0 {
        return;
      }
      assert forall p <- q :: p.msg.command == command;
      wire := wire + [q[0]];
      assert wire[..|wire| - 1] == old(wire);
      pendingCmds := pendingCmds[command := q[0 := q[0].(sentAt := Some(now))]];
      assert q[0 := q[0].(sentAt := Some(now))] == [q[0].(sentAt := Some(now))] + q[1..];
    }

    method EnqueueCommand(downstreamID: nat, downstreamLabel: string, msg: Message, now: int)
      requires Valid() && msg.command in SUPPORTED
      modifies this
      ensures Valid()
      ensures var p := Pending(downstreamID, downstreamLabel, msg, None);
              forall k :: LaneOf(k) == if k == msg.command then Enqueue(old(LaneOf(k)), p, now) else old(LaneOf(k))
    {
      var command := msg.command;
      var q := QueueOf(command) + [Pending(downstreamID, downstreamLabel, msg, None)];
      var timedOut := LeadingTimedOut(q, now);
      if timedOut > 0 {
        ShiftKind(q, timedOut, command);
        q := CopyDown(q, timedOut);
      } else {
        assert Shift(q, 0) == q;
      }
      pendingCmds := pendingCmds[command := q];
      if |QueueOf(command)| == 1 {
        SendNextPendingCommand(command, now);
      }
    }

    /** The client of the entry a reply is for, if it is still connected, and the message. */
    method CurrentPendingCommand(command: string, conns: seq<nat>) returns (dc: Option<nat>, msg: Option<Message>)
      ensures (dc, msg) == Addressee(QueueOf(command), conns)
    {
      if |QueueOf(command)| == 0 {
        return None, None;
      }
      var pendingCmd := QueueOf(command)[0];
      dc := DownstreamByID(conns, pendingCmd.downstreamID);
      msg := Some(pendingCmd.msg);
    }

    method DequeueCommand(command: string, now: int, conns: seq<nat>) returns (dc: Option<nat>, msg: Option<Message>)
      requires Valid()
      modifies this
      ensures Valid() && (dc, msg) == Addressee(old(QueueOf(command)), conns)
      ensures forall k :: LaneOf(k) == if k == command then Dequeue(old(LaneOf(k)), now) else old(LaneOf(k))
    {
      dc, msg := CurrentPendingCommand(command, conns);
      if |QueueOf(command)| > 0 {
        pendingCmds := pendingCmds[command := QueueOf(command)[1..]];
      }
      SendNextPendingCommand(command, now);
    }

    method CancelPendingCommandsByDownstreamID(id: nat)
      requires Valid()
      modifies this
      ensures Valid() && forall k :: LaneOf(k) == Cancel(old(LaneOf(k)), id)
    {
      var todo := pendingCmds.Keys;
      while todo != {}
        invariant Valid() && todo <= pendingCmds.Keys == old(pendingCmds.Keys) && wire == old(wire)
        invariant forall k :: LaneOf(k) == if k in todo then old(LaneOf(k)) else Cancel(old(LaneOf(k)), id)
      {
        var k :| k in todo;
        assert LaneOf(k) == old(LaneOf(k));
        CancelKind(pendingCmds[k], id, k);
        var q := CancelIn(pendingCmds[k], id);
        pendingCmds := pendingCmds[k := q];
        todo := todo - {k};
      }
    }
  }

  /** How many entries at the front have waited for too long. */
  method LeadingTimedOut(q: seq<Pending>, now: int) returns (timedOut: nat)
    ensures timedOut == CountTimedOut(q, now)
  {
    timedOut := 0;
    assert q[0..] == q;
    while timedOut < |q|
      invariant timedOut <= |q|
      invariant timedOut + CountTimedOut(q[timedOut..], now) == CountTimedOut(q, now)
    {
      var p := q[timedOut];
      if p.sentAt.None? || now - p.sentAt.value <= TIMEOUT {
        break;
      }
      assert q[timedOut..][1..] == q[timedOut + 1..];
      timedOut := timedOut + 1;
    }
  }

  /** copy(q, q[n:]), element by element. */
  method CopyDown(q: seq<Pending>, n: nat) returns (r: seq<Pending>)
    requires n <= |q|
    ensures r == Shift(q, n)
  {
    r := q;
    for i := 0 to |q| - n
      invariant |r| == |q|
      invariant forall j | 0 <= j < i :: r[j] == q[n + j]
      invariant forall j | i <= j < |q| :: r[j] == q[j]
    {
      r := r[i := r[n + i]];
    }
  }

  lemma ShiftKind(q: seq<Pending>, n: nat, command: string)
    requires n <= |q| && forall p <- q :: p.msg.command == command
    ensures forall p <- Shift(q, n) :: p.msg.command == command
  {
  }

  lemma CancelKind(q: seq<Pending>, id: nat, command: string)
    requires forall p <- q :: p.msg.command == command
    ensures forall p <- Cancel(Lane(q, []), id).queue :: p.msg.command == command
  {
    if q != [] {
      OthersIn(q[1..], id);
    }
  }

  /** Removal from the back, sparing the first entry. */
  method CancelIn(q: seq<Pending>, id: nat) returns (r: seq<Pending>)
    ensures r == Cancel(Lane(q, []), id).queue
  {
    r := q;
    if q == [] {
      return;
    }
    var i := |q| - 1;
    assert q[|q|..] == [] && q[..|q|] + [] == q;
    while i >= 1
      invariant 0 <= i < |q| && r == q[..i + 1] + Others(q[i + 1..], id)
    {
      assert q[i..][1..] == q[i + 1..] && q[..i + 1] == q[..i] + [q[i]];
      if r[i].downstreamID == id {
        r := r[..i] + r[i + 1..];
      }
      i := i - 1;
    }
    assert q[..1] == [q[0]];
  }

  /** The connection over any run does what the lanes do, for every kind of command at once. */
  method Serve(es: seq<Event>) returns (uc: Upstream)
    requires forall e <- es :: e.Asked? ==> e.p.sentAt.None? && e.p.msg.command in SUPPORTED
    ensures forall k :: uc.LaneOf(k) == Run(k, es)
  {
    uc := new Upstream();
    for i := 0 to |es|
      invariant fresh(uc) && uc.Valid() && forall k :: uc.LaneOf(k) == Run(k, es[..i])
    {
      assert es[..i + 1][..i] == es[..i] && es[i] in es;
      match es[i]
      case Asked(p, now) =>
        assert p == Pending(p.downstreamID, p.downstreamLabel, p.msg, None);
        uc.EnqueueCommand(p.downstreamID, p.downstreamLabel, p.msg, now);
      case Replied(command, now) =>
        var _, _ := uc.DequeueCommand(command, now, []);
      case Left(id) =>
        uc.CancelPendingCommandsByDownstreamID(id);
    }
    assert es[..|es|] == es;
  }
}
