/**
 Backlog delivery: per-(target, client) delivery cursors, live forwarding with PING/PONG
 acknowledgements, replay plus fast-forward when a client comes back.

 One network of one user. Targets are case-mapped names, a message is identified by its position in
 the append-only log of its target, and a cursor holds the number of log entries its client is past.
 The observable outcome is a set of decisions, one for every message a client name was confronted with.
 */
module Delivery {
  import opened Text
  import opened Ring
  import opened Positions

  type Target = string
  type Client = string
  type Key = (Target, Client)

  /** The most messages a reconnecting client is sent for one target. */
  const BACKLOG_LIMIT := 4000

  datatype Message = Message(command: string, storableTag: bool, ours: bool) {
    /** PRIVMSG and NOTICE are the only messages that may be replayed. */
    predicate Chat() { command == "PRIVMSG" || command == "NOTICE" }
  }

  /** A downstream connection: the capabilities that matter here, and the message PINGs sent to it. */
  datatype Conn = Conn(id: nat, client: Client, chatHistory: bool, echoMessage: bool, blockedSub: bool,
                       pinged: set<(Target, nat)>)

  datatype Fate =
    | Queued      // written to a connection of the client, live or as backlog
    | Withheld    // suppressed on purpose: detached, ignored or blocked, or the sender's own echo
    | TooOld      // more than BACKLOG_LIMIT messages behind when the backlog was read
    | Unreadable  // the store failed while the backlog was read
    | Omitted     // the store left it out of the backlog without an error

  datatype Decision = Decision(fate: Fate, client: Client, target: Target, pos: nat)

  /** What the store did with a message it was given. */
  datatype Outcome = LastIdFailed | NotKept | Kept

  /**
   A message store: where LastMsgID points in a log of so many messages, whether it outlives the program, and whether
   its loads leave nothing out.
   */
  datatype Store = Store(last: nat -> nat, persistent: bool, complete: bool)

  datatype State = State(store: Store,
                         log: Log,
                         cursors: map<Key, nat>,
                         conns: seq<Conn>,
                         detached: set<Target>,
                         receipts: map<Key, nat>,
                         trace: set<Decision>,
                         birth: map<Key, nat>,
                         receiptBirth: map<Key, nat>)

  datatype Event =
    | Produce(target: Target, msg: Message, origin: nat, blocked: bool, ignored: bool, outcome: Outcome)
    | Pong(index: nat, target: Target, pos: nat)
    | Connect(conn: Conn, failed: set<Target>, stuck: set<Target>, relayed: set<(Target, nat)>,
              omitted: set<(Target, nat)>)
    | Disconnect(index: nat)
    | SetDetached(target: Target, detached: bool)
    | Restart(clean: bool)

  // ----- The specification of each step -----

  type Log = map<Target, seq<Message>>

  function LogOf(log: Log, t: Target): seq<Message> {
    if t in log then log[t] else []
  }

  /** The number of replayable messages from position `from` on. */
  function ChatFrom(l: seq<Message>, from: nat): nat
    decreases |l| - from
  {
    if from >= |l| then 0 else (if l[from].Chat() then 1 else 0) + ChatFrom(l, from + 1)
  }

  /** A replayable message that a load does not leave out. */
  function Shown(l: seq<Message>, t: Target, omitted: set<(Target, nat)>): nat -> bool {
    (i: nat) => i < |l| && l[i].Chat() && (t, i) !in omitted
  }

  function Visible(l: seq<Message>, t: Target, omitted: set<(Target, nat)>, from: nat): seq<nat> {
    Where(Shown(l, t, omitted), from, |l|)
  }

  /** What a load returns: the last BACKLOG_LIMIT of them. */
  function History(l: seq<Message>, t: Target, omitted: set<(Target, nat)>, from: nat): seq<nat> {
    LastN(Visible(l, t, omitted, from), BACKLOG_LIMIT)
  }

  function Targets(cursors: map<Key, nat>): set<Target> {
    set k | k in cursors.Keys :: k.0
  }

  function Clients(cursors: map<Key, nat>): set<Client> {
    set k | k in cursors.Keys :: k.1
  }

  function TargetsOf(cursors: map<Key, nat>, c: Client): set<Target> {
    set k | k in cursors.Keys && k.1 == c :: k.0
  }

  /** The cursor LastMsgID hands out. */
  function LastPos(s: State, t: Target): nat {
    s.store.last(|LogOf(s.log, t)|)
  }

  /** LastMsgID never points past the last message. */
  ghost predicate NeverAhead(store: Store) {
    forall n: nat :: store.last(n) <= n
  }

  /** Messages to server masks and to NickServ are never stored, nor tag-only messages without a storable tag. */
  predicate Recordable(t: Target, m: Message) {
    && !(m.command == "TAGMSG" && !m.storableTag)
    && !("$" <= t)
    && t != "nickserv"
  }

  /** What the first message of an unknown target leaves: an entry for every known client. */
  function Introduce(m: map<Key, nat>, clients: set<Client>, t: Target, pos: nat): map<Key, nat> {
    m + map c | c in clients :: (t, c) := pos
  }

  predicate Introduces(s: State, t: Target) {
    s.cursors != map[] && t !in Targets(s.cursors)
  }

  /** Cursors for every known client, the first time a target is heard of. */
  function WithTarget(s: State, t: Target): State {
    s.(cursors := Introduce(s.cursors, Clients(s.cursors), t, LastPos(s, t)),
       birth := Introduce(s.birth, Clients(s.cursors), t, |LogOf(s.log, t)|))
  }

  /** The store could not tell the last message ID when it was needed. */
  predicate LookupFails(s: State, t: Target, outcome: Outcome) {
    Introduces(s, t) && outcome.LastIdFailed?
  }

  function Appended(log: Log, t: Target, m: Message): Log {
    log[t := LogOf(log, t) + [m]]
  }

  predicate Skips(dc: Conn, blocked: bool) {
    blocked && !dc.blockedSub
  }

  predicate Forwards(s: State, dc: Conn, e: Event)
    requires e.Produce?
  {
    var echo := dc.id == e.origin && e.msg.ours;
    !Skips(dc, e.blocked) && e.target !in s.detached && !e.ignored && (!echo || dc.echoMessage)
  }

  function Ping(dc: Conn, e: Event, pos: nat): Conn
    requires e.Produce?
  {
    if Skips(dc, e.blocked) || !e.msg.Chat() || dc.chatHistory then dc
    else dc.(pinged := dc.pinged + {(e.target, pos)})
  }

  function LiveDecision(s: State, dc: Conn, e: Event, pos: nat): Decision
    requires e.Produce?
  {
    Decision(if Forwards(s, dc, e) then Queued else Withheld, dc.client, e.target, pos)
  }

  /** Confront every open connection with the message at `pos`. */
  function Forward(s: State, e: Event, pos: nat): State
    requires e.Produce?
  {
    s.(conns := seq(|s.conns|, i requires 0 <= i < |s.conns| => Ping(s.conns[i], e, pos)),
       trace := s.trace + set i | 0 <= i < |s.conns| :: LiveDecision(s, s.conns[i], e, pos))
  }

  function WithMessage(s: State, e: Event): State
    requires e.Produce?
  {
    Forward(s.(log := Appended(s.log, e.target, e.msg)), e, |LogOf(s.log, e.target)|)
  }

  /** The state and the message position appendLog leaves behind. */
  function Record(s: State, e: Event): (State, Option<nat>)
    requires e.Produce?
  {
    if !Recordable(e.target, e.msg) || LookupFails(s, e.target, e.outcome) then (s, None)
    else
      var s1 := if Introduces(s, e.target) then WithTarget(s, e.target) else s;
      if e.outcome.Kept? then (s1.(log := Appended(s1.log, e.target, e.msg)), Some(|LogOf(s1.log, e.target)|))
      else (s1, None)
  }

  function DoProduce(s: State, e: Event): State
    requires e.Produce?
  {
    match Record(s, e)
    case (s1, None) => s1
    case (s1, Some(pos)) => Forward(s1, e, pos)
  }

  predicate First(s: State, c: Client) {
    forall i | 0 <= i < |s.conns| :: s.conns[i].client != c
  }

  /** The fate of one unread message when the backlog of its target is read. */
  function ReplayFate(s: State, e: Event, t: Target, pos: nat): Fate
    requires e.Connect?
  {
    if t in e.failed then Unreadable
    else if (t, pos) in e.omitted then Omitted
    else if |Visible(LogOf(s.log, t), t, e.omitted, pos + 1)| >= BACKLOG_LIMIT then TooOld
    else if t in s.detached && (t, pos) !in e.relayed then Withheld
    else Queued
  }

  function ReplayDecisions(s: State, e: Event, t: Target): set<Decision>
    requires e.Connect? && (t, e.conn.client) in s.cursors
  {
    set i | s.cursors[(t, e.conn.client)] <= i < |LogOf(s.log, t)| && LogOf(s.log, t)[i].Chat()
        :: Decision(ReplayFate(s, e, t, i), e.conn.client, t, i)
  }

  function AllReplayDecisions(s: State, e: Event, ts: set<Target>): set<Decision>
    requires e.Connect? && ts <= TargetsOf(s.cursors, e.conn.client)
  {
    set t, d | t in ts && d in ReplayDecisions(s, e, t) :: d
  }

  function FastForward(s: State, e: Event, ts: set<Target>): map<Key, nat>
    requires e.Connect?
  {
    map k | k in s.cursors ::
      if k.1 == e.conn.client && k.0 in ts && k.0 !in e.stuck then LastPos(s, k.0) else s.cursors[k]
  }

  /** The client is sent its backlog of every target it has a cursor on, and its cursors move on. */
  function Replay(s: State, e: Event): State
    requires e.Connect?
  {
    var ts := TargetsOf(s.cursors, e.conn.client);
    s.(trace := s.trace + AllReplayDecisions(s, e, ts), cursors := FastForward(s, e, ts))
  }

  function DoConnect(s: State, e: Event): State
    requires e.Connect?
  {
    var s1 := if e.conn.chatHistory || !First(s, e.conn.client) then s else Replay(s, e);
    s1.(conns := s1.conns + [e.conn])
  }

  function DoPong(s: State, e: Event): State
    requires e.Pong? && e.index < |s.conns|
  {
    var k := (e.target, s.conns[e.index].client);
    s.(cursors := s.cursors[k := e.pos + 1],
       birth := if k in s.cursors then s.birth else s.birth[k := e.pos + 1])
  }

  /** Replace what is stored for one client by its current cursors. */
  function StoreReceipts(stored: map<Key, nat>, cursors: map<Key, nat>, c: Client): map<Key, nat> {
    (map k | k in stored && k.1 != c :: stored[k]) + (map k | k in cursors && k.1 == c :: cursors[k])
  }

  function DoDisconnect(s: State, e: Event): State
    requires e.Disconnect? && e.index < |s.conns|
  {
    var c := s.conns[e.index].client;
    s.(conns := s.conns[..e.index] + s.conns[e.index + 1..],
       receipts := if s.store.persistent then StoreReceipts(s.receipts, s.cursors, c) else s.receipts,
       receiptBirth := if s.store.persistent then StoreReceipts(s.receiptBirth, s.birth, c) else s.receiptBirth)
  }

  /** A stop that saves every client's cursors, or a crash; either way the stored receipts are read back. */
  function DoRestart(s: State, e: Event): State
    requires e.Restart?
  {
    var kept := map k | k in s.receipts && k.1 !in Clients(s.cursors) :: s.receipts[k];
    var keptBirth := map k | k in s.receiptBirth && k.1 !in Clients(s.cursors) :: s.receiptBirth[k];
    var receipts := if e.clean then kept + s.cursors else s.receipts;
    var receiptBirth := if e.clean then keptBirth + s.birth else s.receiptBirth;
    s.(conns := [], cursors := receipts, receipts := receipts, birth := receiptBirth, receiptBirth := receiptBirth)
  }

  function Step(s: State, e: Event): State
    requires Enabled(s, e)
  {
    match e
    case Produce(_, _, _, _, _, _) => DoProduce(s, e)
    case Pong(_, _, _) => DoPong(s, e)
    case Connect(_, _, _, _, _) => DoConnect(s, e)
    case Disconnect(_) => DoDisconnect(s, e)
    case SetDetached(t, d) => s.(detached := if d then s.detached + {t} else s.detached - {t})
    case Restart(_) => DoRestart(s, e)
  }

  /**
   What can happen in a state. A client is honest: it answers only PINGs it was sent on that connection.
   Only a persistent store survives a restart.
   */
  predicate Enabled(s: State, e: Event) {
    match e
    case Produce(_, _, _, _, _, _) => true
    case Pong(i, t, pos) => i < |s.conns| && (t, pos) in s.conns[i].pinged
    case Connect(dc, _, _, _, omitted) => dc.pinged == {} && (s.store.complete ==> omitted == {})
    case Disconnect(i) => i < |s.conns|
    case SetDetached(_, _) => true
    case Restart(_) => s.store.persistent
  }

  function Init(store: Store): State {
    State(store, map[], map[], [], {}, map[], {}, map[], map[])
  }

  // ----- The guarantee -----

  /** Queued, or not queued for a reason; being left out without a word is none. */
  ghost predicate Accounted(trace: set<Decision>, c: Client, t: Target, pos: nat) {
    || Decision(Queued, c, t, pos) in trace
    || Decision(Withheld, c, t, pos) in trace
    || Decision(TooOld, c, t, pos) in trace
    || Decision(Unreadable, c, t, pos) in trace
  }

  ghost predicate Decided(trace: set<Decision>, c: Client, t: Target, pos: nat) {
    Accounted(trace, c, t, pos) || Decision(Omitted, c, t, pos) in trace
  }

  /** A connection that relies on the bouncer's backlog rather than on CHATHISTORY is open. */
  ghost predicate Plain(conns: seq<Conn>, c: Client) {
    exists i | 0 <= i < |conns| :: conns[i].client == c && !conns[i].chatHistory
  }

  /** Every replayable message of `t` at positions lo..hi of its log `l` has been decided upon for `c`. */
  ghost predicate Covered(trace: set<Decision>, l: seq<Message>, c: Client, t: Target, lo: nat, hi: nat) {
    forall i | lo <= i < hi && i < |l| && l[i].Chat() :: Decided(trace, c, t, i)
  }

  /** A message a client name is owed: replayable, and logged since the name's cursor on the target was made. */
  ghost predicate Owed(s: State, k: Key, i: nat) {
    k in s.cursors && k in s.birth && s.birth[k] <= i < |LogOf(s.log, k.0)| && LogOf(s.log, k.0)[i].Chat()
  }

  /**
   At-least-once delivery: a client name with a cursor on a target and an open connection has been
   queued every message logged since that cursor was created, unless a recorded decision says why not.
   */
  ghost predicate Guarantee(s: State) {
    forall k, i: nat | Owed(s, k, i) && Plain(s.conns, k.1) :: Accounted(s.trace, k.1, k.0, i)
  }

  /** The same with messages left out by the store counted in. */
  ghost predicate AllDecided(s: State) {
    forall k | k in s.cursors && Plain(s.conns, k.1) ::
      k in s.birth && Covered(s.trace, LogOf(s.log, k.0), k.1, k.0, s.birth[k], |LogOf(s.log, k.0)|)
  }

  /**
   The connect rule under which the guarantee is kept: a backlog client may only join connections of
   its own name if one of them is a backlog client too.
   */
  ghost predicate Unmixed(s: State, e: Event) {
    e.Connect? && !e.conn.chatHistory ==> First(s, e.conn.client) || Plain(s.conns, e.conn.client)
  }

  /** An event that cannot happen changes nothing. */
  function Go(s: State, e: Event): State {
    if Enabled(s, e) then Step(s, e) else s
  }

  /** Any sequence of events. */
  function Run(s: State, es: seq<Event>): State
    decreases es
  {
    if es == [] then s else Run(Go(s, es[0]), es[1..])
  }

  /** A sequence of enabled, unmixed events. */
  ghost predicate ValidRun(s: State, es: seq<Event>)
    decreases es
  {
    es == [] || (Enabled(s, es[0]) && Unmixed(s, es[0]) && ValidRun(Go(s, es[0]), es[1..]))
  }

  // ----- What every step keeps -----

  /** Nothing before a cursor is undecided, and no cursor is past the log. */
  ghost predicate CursorsSound(trace: set<Decision>, log: Log, cursors: map<Key, nat>, birth: map<Key, nat>) {
    && cursors.Keys == birth.Keys
    && forall k | k in cursors ::
         cursors[k] <= |LogOf(log, k.0)| && Covered(trace, LogOf(log, k.0), k.1, k.0, birth[k], cursors[k])
  }

  /** A connection that was PINGed for a message has been confronted with everything since. */
  ghost predicate PingSound(trace: set<Decision>, log: Log, dc: Conn) {
    forall p | p in dc.pinged ::
      && !dc.chatHistory
      && p.1 < |LogOf(log, p.0)|
      && Covered(trace, LogOf(log, p.0), dc.client, p.0, p.1, |LogOf(log, p.0)|)
  }

  ghost predicate Inv(s: State) {
    && NeverAhead(s.store)
    && CursorsSound(s.trace, s.log, s.cursors, s.birth)
    && CursorsSound(s.trace, s.log, s.receipts, s.receiptBirth)
    && (forall i | 0 <= i < |s.conns| :: PingSound(s.trace, s.log, s.conns[i]))
    && AllDecided(s)
    && (s.store.complete ==> NoneOmitted(s.trace))
  }

  ghost predicate NoneOmitted(trace: set<Decision>) {
    forall d | d in trace :: d.fate != Omitted
  }

  ghost predicate LogGrows(log: Log, log': Log) {
    forall t :: LogOf(log, t) <= LogOf(log', t)
  }

  lemma CoveredMore(trace: set<Decision>, trace': set<Decision>, l: seq<Message>, c: Client, t: Target, lo: nat,
                    hi: nat)
    requires trace <= trace' && Covered(trace, l, c, t, lo, hi)
    ensures Covered(trace', l, c, t, lo, hi)
  {
  }

  lemma SoundMonotone(trace: set<Decision>, trace': set<Decision>, log: Log, log': Log,
                      cursors: map<Key, nat>, birth: map<Key, nat>)
    requires trace <= trace' && LogGrows(log, log') && CursorsSound(trace, log, cursors, birth)
    ensures CursorsSound(trace', log', cursors, birth)
  {
    forall k | k in cursors
      ensures cursors[k] <= |LogOf(log', k.0)|
      ensures Covered(trace', LogOf(log', k.0), k.1, k.0, birth[k], cursors[k])
    {
      assert LogOf(log, k.0) <= LogOf(log', k.0);
      assert Covered(trace, LogOf(log, k.0), k.1, k.0, birth[k], cursors[k]);
    }
  }

  // Introducing a target

  lemma IntroduceSound(s: State, t: Target)
    requires Inv(s) && t !in Targets(s.cursors)
    ensures var s' := WithTarget(s, t); CursorsSound(s'.trace, s'.log, s'.cursors, s'.birth)
  {
    var s' := WithTarget(s, t);
    forall k | k in s'.cursors
      ensures s'.cursors[k] <= |LogOf(s'.log, k.0)|
      ensures Covered(s'.trace, LogOf(s'.log, k.0), k.1, k.0, s'.birth[k], s'.cursors[k])
    {
      if k in s.cursors {
        assert k.0 in Targets(s.cursors);
      }
    }
  }

  lemma IntroduceKeeps(s: State, t: Target)
    requires Inv(s) && t !in Targets(s.cursors)
    ensures Inv(WithTarget(s, t))
  {
    var s' := WithTarget(s, t);
    IntroduceSound(s, t);
    forall k | k in s'.cursors && Plain(s'.conns, k.1)
      ensures Covered(s'.trace, LogOf(s'.log, k.0), k.1, k.0, s'.birth[k], |LogOf(s'.log, k.0)|)
    {
      if k in s.cursors {
        assert k.0 in Targets(s.cursors);
      }
    }
  }

  // Logging a message and confronting every open connection with it

  lemma LiveCovers(s: State, e: Event, i: nat, t: Target, lo: nat)
    requires e.Produce? && i < |s.conns|
    requires Covered(s.trace, LogOf(s.log, t), s.conns[i].client, t, lo, |LogOf(s.log, t)|)
    ensures var s' := WithMessage(s, e);
            Covered(s'.trace, LogOf(s'.log, t), s.conns[i].client, t, lo, |LogOf(s'.log, t)|)
  {
    var s' := WithMessage(s, e);
    var c := s.conns[i].client;
    forall j | lo <= j < |LogOf(s'.log, t)| && LogOf(s'.log, t)[j].Chat()
      ensures Decided(s'.trace, c, t, j)
    {
      if j < |LogOf(s.log, t)| {
        assert LogOf(s.log, t)[j].Chat();
        assert Decided(s.trace, c, t, j);
      } else {
        var s1 := s.(log := Appended(s.log, e.target, e.msg));
        assert LiveDecision(s1, s1.conns[i], e, j) in s'.trace;
      }
    }
  }

  lemma MessageKeepsPings(s: State, e: Event, i: nat)
    requires e.Produce? && Inv(s) && i < |s.conns|
    ensures var s' := WithMessage(s, e); PingSound(s'.trace, s'.log, s'.conns[i])
  {
    var s' := WithMessage(s, e);
    forall p | p in s'.conns[i].pinged
      ensures !s'.conns[i].chatHistory && p.1 < |LogOf(s'.log, p.0)|
      ensures Covered(s'.trace, LogOf(s'.log, p.0), s'.conns[i].client, p.0, p.1, |LogOf(s'.log, p.0)|)
    {
      assert PingSound(s.trace, s.log, s.conns[i]);
      LiveCovers(s, e, i, p.0, p.1);
    }
  }

  lemma MessageKeeps(s: State, e: Event)
    requires e.Produce? && Inv(s)
    ensures Inv(WithMessage(s, e))
  {
    var s' := WithMessage(s, e);
    SoundMonotone(s.trace, s'.trace, s.log, s'.log, s.cursors, s.birth);
    SoundMonotone(s.trace, s'.trace, s.log, s'.log, s.receipts, s.receiptBirth);
    forall k | k in s'.cursors && Plain(s'.conns, k.1)
      ensures Covered(s'.trace, LogOf(s'.log, k.0), k.1, k.0, s'.birth[k], |LogOf(s'.log, k.0)|)
    {
      var i :| 0 <= i < |s'.conns| && s'.conns[i].client == k.1 && !s'.conns[i].chatHistory;
      assert s.conns[i].client == k.1 && !s.conns[i].chatHistory;
      assert Plain(s.conns, k.1);
      LiveCovers(s, e, i, k.0, s.birth[k]);
    }
    forall i | 0 <= i < |s'.conns| ensures PingSound(s'.trace, s'.log, s'.conns[i]) {
      MessageKeepsPings(s, e, i);
    }
  }

  lemma ProduceCases(s: State, e: Event)
    requires e.Produce?
    ensures var s1 := if Introduces(s, e.target) then WithTarget(s, e.target) else s;
            DoProduce(s, e) == s || DoProduce(s, e) == s1 || DoProduce(s, e) == WithMessage(s1, e)
  {
  }

  lemma ProduceKeeps(s: State, e: Event)
    requires e.Produce? && Inv(s)
    ensures Inv(DoProduce(s, e))
  {
    ProduceCases(s, e);
    var s1 := s;
    if Introduces(s, e.target) {
      IntroduceKeeps(s, e.target);
      s1 := WithTarget(s, e.target);
    }
    MessageKeeps(s1, e);
  }

  // Acknowledgements

  lemma PongKeeps(s: State, e: Event)
    requires e.Pong? && Enabled(s, e) && Inv(s)
    ensures Inv(DoPong(s, e))
  {
    var s' := DoPong(s, e);
    var dc := s.conns[e.index];
    var key := (e.target, dc.client);
    assert PingSound(s.trace, s.log, dc);
    assert Covered(s.trace, LogOf(s.log, key.0), key.1, key.0, e.pos, |LogOf(s.log, key.0)|);
    assert Plain(s.conns, key.1);
    assert key in s.cursors ==>
      Covered(s.trace, LogOf(s.log, key.0), key.1, key.0, s.birth[key], |LogOf(s.log, key.0)|);
  }

  // Connecting

  lemma ReplayCovers(s: State, e: Event, k: Key)
    requires e.Connect? && Inv(s) && !e.conn.chatHistory && First(s, e.conn.client)
    requires k in s.cursors && k.1 == e.conn.client
    ensures var s' := DoConnect(s, e);
            Covered(s'.trace, LogOf(s.log, k.0), k.1, k.0, s.birth[k], |LogOf(s.log, k.0)|)
  {
    var s' := DoConnect(s, e);
    var l := LogOf(s.log, k.0);
    forall i | s.birth[k] <= i < |l| && l[i].Chat() ensures Decided(s'.trace, k.1, k.0, i) {
      if i < s.cursors[k] {
        assert Covered(s.trace, l, k.1, k.0, s.birth[k], s.cursors[k]);
        assert Decided(s.trace, k.1, k.0, i);
      } else {
        assert k.0 in TargetsOf(s.cursors, k.1);
        assert k == (k.0, e.conn.client);
        assert Decision(ReplayFate(s, e, k.0, i), k.1, k.0, i) in ReplayDecisions(s, e, k.0);
      }
    }
  }

  /** Connecting moves only cursors that are replayed from, and none past its log. */
  lemma ConnectMoves(s: State, e: Event)
    requires e.Connect? && NeverAhead(s.store) && forall k | k in s.cursors :: s.cursors[k] <= |LogOf(s.log, k.0)|
    ensures var s' := DoConnect(s, e);
            && s'.log == s.log && s'.birth == s.birth && s.trace <= s'.trace && s'.cursors.Keys == s.cursors.Keys
            && forall k | k in s.cursors ::
                 && s'.cursors[k] <= |LogOf(s.log, k.0)|
                 && (s'.cursors[k] == s.cursors[k] ||
                     (k.1 == e.conn.client && !e.conn.chatHistory && First(s, k.1)))
  {
  }

  lemma ConnectCursorsSound(s: State, e: Event)
    requires e.Connect? && Inv(s)
    ensures var s' := DoConnect(s, e); CursorsSound(s'.trace, s'.log, s'.cursors, s'.birth)
  {
    var s' := DoConnect(s, e);
    ConnectMoves(s, e);
    forall k | k in s.cursors
      ensures Covered(s'.trace, LogOf(s.log, k.0), k.1, k.0, s.birth[k], s'.cursors[k])
    {
      if k.1 == e.conn.client && !e.conn.chatHistory && First(s, k.1) {
        ReplayCovers(s, e, k);
      } else {
        CoveredMore(s.trace, s'.trace, LogOf(s.log, k.0), k.1, k.0, s.birth[k], s.cursors[k]);
      }
    }
  }

  lemma ConnectConns(s: State, e: Event)
    requires e.Connect?
    ensures DoConnect(s, e).conns == s.conns + [e.conn]
  {
  }

  lemma PlainSnoc(conns: seq<Conn>, dc: Conn, c: Client)
    ensures Plain(conns + [dc], c) <==> Plain(conns, c) || (c == dc.client && !dc.chatHistory)
  {
    if Plain(conns, c) {
      var i :| 0 <= i < |conns| && conns[i].client == c && !conns[i].chatHistory;
      assert (conns + [dc])[i] == conns[i];
    } else if c == dc.client && !dc.chatHistory {
      assert (conns + [dc])[|conns|] == dc;
    }
  }

  lemma PlainAfterConnect(s: State, e: Event, c: Client)
    requires e.Connect?
    ensures Plain(DoConnect(s, e).conns, c) <==> Plain(s.conns, c) || (c == e.conn.client && !e.conn.chatHistory)
  {
    ConnectConns(s, e);
    PlainSnoc(s.conns, e.conn, c);
  }

  lemma ConnectDecides(s: State, e: Event)
    requires e.Connect? && Enabled(s, e) && Unmixed(s, e) && Inv(s)
    ensures AllDecided(DoConnect(s, e))
  {
    var s' := DoConnect(s, e);
    forall k | k in s'.cursors && Plain(s'.conns, k.1)
      ensures Covered(s'.trace, LogOf(s'.log, k.0), k.1, k.0, s'.birth[k], |LogOf(s'.log, k.0)|)
    {
      PlainAfterConnect(s, e, k.1);
      if k.1 == e.conn.client && !e.conn.chatHistory && First(s, k.1) {
        ReplayCovers(s, e, k);
      } else {
        assert Covered(s.trace, LogOf(s.log, k.0), k.1, k.0, s.birth[k], |LogOf(s.log, k.0)|);
      }
    }
  }

  /** A load that leaves nothing out adds no omission. */
  lemma ConnectOmitsNone(s: State, e: Event)
    requires e.Connect? && e.omitted == {} && NoneOmitted(s.trace)
    ensures NoneOmitted(DoConnect(s, e).trace)
  {
    var s' := DoConnect(s, e);
    forall d | d in s'.trace ensures d.fate != Omitted {
      if d !in s.trace {
        var t :| t in TargetsOf(s.cursors, e.conn.client) && d in ReplayDecisions(s, e, t);
      }
    }
  }

  lemma ConnectKeepsPings(s: State, e: Event)
    requires e.Connect? && Enabled(s, e) && Inv(s)
    ensures var s' := DoConnect(s, e); forall i | 0 <= i < |s'.conns| :: PingSound(s'.trace, s'.log, s'.conns[i])
  {
    var s' := DoConnect(s, e);
    forall i | 0 <= i < |s'.conns| ensures PingSound(s'.trace, s'.log, s'.conns[i]) {
      if i < |s.conns| {
        assert PingSound(s.trace, s.log, s.conns[i]);
      }
    }
  }

  lemma ConnectKeeps(s: State, e: Event)
    requires e.Connect? && Enabled(s, e) && Unmixed(s, e) && Inv(s)
    ensures Inv(DoConnect(s, e))
  {
    var s' := DoConnect(s, e);
    ConnectCursorsSound(s, e);
    SoundMonotone(s.trace, s'.trace, s.log, s'.log, s.receipts, s.receiptBirth);
    ConnectDecides(s, e);
    ConnectKeepsPings(s, e);
    if s.store.complete {
      ConnectOmitsNone(s, e);
    }
  }

  // Disconnecting and restarting

  lemma StoreReceiptsSound(s: State, c: Client)
    requires Inv(s)
    ensures CursorsSound(s.trace, s.log, StoreReceipts(s.receipts, s.cursors, c),
                         StoreReceipts(s.receiptBirth, s.birth, c))
  {
  }

  lemma DisconnectKeeps(s: State, e: Event)
    requires e.Disconnect? && Enabled(s, e) && Inv(s)
    ensures Inv(DoDisconnect(s, e))
  {
    var s' := DoDisconnect(s, e);
    StoreReceiptsSound(s, s.conns[e.index].client);
    forall i | 0 <= i < |s'.conns| ensures s'.conns[i] in s.conns {
    }
    forall k | k in s'.cursors && Plain(s'.conns, k.1)
      ensures Covered(s'.trace, LogOf(s'.log, k.0), k.1, k.0, s'.birth[k], |LogOf(s'.log, k.0)|)
    {
      var i :| 0 <= i < |s'.conns| && s'.conns[i].client == k.1 && !s'.conns[i].chatHistory;
      assert s'.conns[i] in s.conns;
      assert Plain(s.conns, k.1);
    }
  }

  lemma SavedSound(s: State)
    requires Inv(s)
    ensures var cs := Clients(s.cursors);
            CursorsSound(s.trace, s.log, (map k | k in s.receipts && k.1 !in cs :: s.receipts[k]) + s.cursors,
                         (map k | k in s.receiptBirth && k.1 !in cs :: s.receiptBirth[k]) + s.birth)
  {
    forall k | k in s.cursors ensures k.1 in Clients(s.cursors) {
    }
  }

  lemma RestartKeeps(s: State, e: Event)
    requires e.Restart? && Inv(s)
    ensures Inv(DoRestart(s, e))
  {
    SavedSound(s);
  }

  lemma StepKeeps(s: State, e: Event)
    requires Enabled(s, e) && Unmixed(s, e) && Inv(s)
    ensures Inv(Step(s, e))
  {
    match e
    case Produce(_, _, _, _, _, _) => ProduceKeeps(s, e);
    case Pong(_, _, _) => PongKeeps(s, e);
    case Connect(_, _, _, _, _) => ConnectKeeps(s, e);
    case Disconnect(_) => DisconnectKeeps(s, e);
    case SetDetached(_, _) =>
    case Restart(_) => RestartKeeps(s, e);
  }

  lemma {:induction false} RunKeeps(s: State, es: seq<Event>)
    requires Inv(s) && ValidRun(s, es)
    ensures Inv(Run(s, es))
    decreases es
  {
    if es != [] {
      StepKeeps(s, es[0]);
      RunKeeps(Go(s, es[0]), es[1..]);
    }
  }

  /** Over every run with such a LastMsgID, every message is decided upon; what the store leaves out is on record. */
  lemma EveryMessageDecided(store: Store, es: seq<Event>)
    requires NeverAhead(store) && ValidRun(Init(store), es)
    ensures AllDecided(Run(Init(store), es))
  {
    RunKeeps(Init(store), es);
  }

  lemma CompleteGuarantee(s: State)
    requires Inv(s) && s.store.complete
    ensures Guarantee(s)
  {
    forall k, i: nat | Owed(s, k, i) && Plain(s.conns, k.1) ensures Accounted(s.trace, k.1, k.0, i) {
      assert Covered(s.trace, LogOf(s.log, k.0), k.1, k.0, s.birth[k], |LogOf(s.log, k.0)|);
      assert Decided(s.trace, k.1, k.0, i);
    }
  }

  lemma StepStore(s: State, e: Event)
    requires Enabled(s, e)
    ensures Step(s, e).store == s.store
  {
    if e.Produce? {
      RecordTrace(s, e);
    }
  }

  lemma {:induction false} RunStore(s: State, es: seq<Event>)
    ensures Run(s, es).store == s.store
    decreases es
  {
    if es != [] {
      if Enabled(s, es[0]) {
        StepStore(s, es[0]);
      }
      RunStore(Go(s, es[0]), es[1..]);
    }
  }

  /**
   At-least-once delivery over every run, whatever the interleaving, for a store whose LastMsgID is never ahead and
   whose loads leave nothing out.
   */
  lemma AtLeastOnce(store: Store, es: seq<Event>)
    requires NeverAhead(store) && store.complete && ValidRun(Init(store), es)
    ensures Guarantee(Run(Init(store), es))
  {
    RunKeeps(Init(store), es);
    RunStore(Init(store), es);
    CompleteGuarantee(Run(Init(store), es));
  }

  // ----- When nothing is lost at all -----

  ghost predicate Lossless(trace: set<Decision>) {
    forall d | d in trace :: d.fate.Queued? || d.fate.Withheld?
  }

  /** A backlog that is read at all can be read, fits the limit, and comes whole. */
  ghost predicate Readable(s: State, e: Event) {
    e.Connect? && !e.conn.chatHistory && First(s, e.conn.client) ==>
      forall k | k in s.cursors && k.1 == e.conn.client ::
        var unread := ChatFrom(LogOf(s.log, k.0), s.cursors[k]);
        || unread == 0
        || (k.0 !in e.failed && unread <= BACKLOG_LIMIT && Whole(LogOf(s.log, k.0), k.0, e.omitted, s.cursors[k]))
  }

  /** No replayable message from position `from` on is left out. */
  ghost predicate Whole(l: seq<Message>, t: Target, omitted: set<(Target, nat)>, from: nat) {
    forall i | from <= i < |l| && l[i].Chat() :: (t, i) !in omitted
  }

  lemma {:induction false} VisibleCount(l: seq<Message>, t: Target, omitted: set<(Target, nat)>, from: nat)
    ensures |Visible(l, t, omitted, from)| <= ChatFrom(l, from)
    ensures Whole(l, t, omitted, from) ==> |Visible(l, t, omitted, from)| == ChatFrom(l, from)
    decreases |l| - from
  {
    if from < |l| {
      VisibleCount(l, t, omitted, from + 1);
    }
  }

  /** The first replayable message at or after `from`. */
  lemma {:induction false} FirstChat(l: seq<Message>, from: nat) returns (i: nat)
    requires ChatFrom(l, from) > 0
    ensures from <= i < |l| && l[i].Chat() && ChatFrom(l, from) == 1 + ChatFrom(l, i + 1)
    decreases |l| - from
  {
    if l[from].Chat() {
      i := from;
    } else {
      i := FirstChat(l, from + 1);
    }
  }

  lemma {:induction false} ChatFromShrinks(l: seq<Message>, from: nat, i: nat)
    requires from <= i < |l| && l[i].Chat()
    ensures ChatFrom(l, from) >= 1 + ChatFrom(l, i + 1)
    decreases i - from
  {
    if from < i {
      ChatFromShrinks(l, from + 1, i);
    }
  }

  /** One unread message of a backlog that can be read whole is queued or withheld. */
  lemma ReadableFate(s: State, e: Event, k: Key, i: nat)
    requires e.Connect? && k in s.cursors && k.1 == e.conn.client && k.0 !in e.failed
    requires ChatFrom(LogOf(s.log, k.0), s.cursors[k]) <= BACKLOG_LIMIT
    requires Whole(LogOf(s.log, k.0), k.0, e.omitted, s.cursors[k])
    requires s.cursors[k] <= i < |LogOf(s.log, k.0)| && LogOf(s.log, k.0)[i].Chat()
    ensures ReplayFate(s, e, k.0, i).Queued? || ReplayFate(s, e, k.0, i).Withheld?
  {
    ChatFromShrinks(LogOf(s.log, k.0), s.cursors[k], i);
    VisibleCount(LogOf(s.log, k.0), k.0, e.omitted, i + 1);
  }

  /** Of any other backlog with unread messages, some message is lost. */
  lemma LostFate(s: State, e: Event, k: Key) returns (i: nat)
    requires e.Connect? && k in s.cursors && k.1 == e.conn.client
    requires ChatFrom(LogOf(s.log, k.0), s.cursors[k]) > 0
    requires k.0 in e.failed || ChatFrom(LogOf(s.log, k.0), s.cursors[k]) > BACKLOG_LIMIT ||
             !Whole(LogOf(s.log, k.0), k.0, e.omitted, s.cursors[k])
    ensures s.cursors[k] <= i < |LogOf(s.log, k.0)| && LogOf(s.log, k.0)[i].Chat()
    ensures !ReplayFate(s, e, k.0, i).Queued? && !ReplayFate(s, e, k.0, i).Withheld?
  {
    var l := LogOf(s.log, k.0);
    if k.0 !in e.failed && !Whole(l, k.0, e.omitted, s.cursors[k]) {
      i :| s.cursors[k] <= i < |l| && l[i].Chat() && (k.0, i) in e.omitted;
    } else {
      i := FirstChat(l, s.cursors[k]);
      VisibleCount(l, k.0, e.omitted, i + 1);
    }
  }

  /** Connecting loses a message exactly if a backlog with unread messages fails, exceeds the limit or is not whole. */
  lemma ConnectLosslessIff(s: State, e: Event)
    requires e.Connect? && Lossless(s.trace)
    ensures Lossless(DoConnect(s, e).trace) <==> Readable(s, e)
  {
    var s' := DoConnect(s, e);
    var c := e.conn.client;
    if !e.conn.chatHistory && First(s, c) {
      if Readable(s, e) {
        forall d | d in s'.trace ensures d.fate.Queued? || d.fate.Withheld? {
          if d !in s.trace {
            var t :| t in TargetsOf(s.cursors, c) && d in ReplayDecisions(s, e, t);
            assert (t, c) in s.cursors;
            ChatFromShrinks(LogOf(s.log, t), s.cursors[(t, c)], d.pos);
            ReadableFate(s, e, (t, c), d.pos);
          }
        }
      } else {
        UnreadableLoses(s, e);
      }
    }
  }

  lemma UnreadableLoses(s: State, e: Event)
    requires e.Connect? && !e.conn.chatHistory && First(s, e.conn.client) && !Readable(s, e)
    ensures !Lossless(DoConnect(s, e).trace)
  {
    var c := e.conn.client;
    var k :| k in s.cursors && k.1 == c && ChatFrom(LogOf(s.log, k.0), s.cursors[k]) > 0 &&
             (k.0 in e.failed || ChatFrom(LogOf(s.log, k.0), s.cursors[k]) > BACKLOG_LIMIT ||
              !Whole(LogOf(s.log, k.0), k.0, e.omitted, s.cursors[k]));
    var i := LostFate(s, e, k);
    assert k == (k.0, c) && k.0 in TargetsOf(s.cursors, c);
    var d := Decision(ReplayFate(s, e, k.0, i), c, k.0, i);
    assert d in ReplayDecisions(s, e, k.0) && d in DoConnect(s, e).trace;
  }

  ghost predicate ReadableRun(s: State, es: seq<Event>)
    decreases es
  {
    es == [] || (Readable(s, es[0]) && ReadableRun(Go(s, es[0]), es[1..]))
  }

  lemma {:induction false} RunLosslessIff(s: State, es: seq<Event>)
    requires ValidRun(s, es) && Lossless(s.trace)
    ensures Lossless(Run(s, es).trace) <==> ReadableRun(s, es)
    decreases es
  {
    if es != [] {
      var s' := Step(s, es[0]);
      StepLosslessIff(s, es[0]);
      if Lossless(s'.trace) {
        RunLosslessIff(s', es[1..]);
      } else {
        TraceGrows(s', es[1..]);
      }
    }
  }

  lemma ProduceLossless(s: State, e: Event)
    requires e.Produce? && Lossless(s.trace)
    ensures Lossless(DoProduce(s, e).trace)
  {
    var (s1, id) := Record(s, e);
    RecordTrace(s, e);
    if id.Some? {
      ForwardLossless(s1, e, id.value);
    }
  }

  lemma RecordTrace(s: State, e: Event)
    requires e.Produce?
    ensures var s1 := Record(s, e).0;
            s1.trace == s.trace && s1.conns == s.conns && s1.store == s.store
  {
  }

  lemma ForwardLossless(s: State, e: Event, pos: nat)
    requires e.Produce? && Lossless(s.trace)
    ensures Lossless(Forward(s, e, pos).trace)
  {
  }

  lemma StepLosslessIff(s: State, e: Event)
    requires Enabled(s, e) && Lossless(s.trace)
    ensures Lossless(Step(s, e).trace) <==> Readable(s, e)
  {
    match e
    case Produce(_, _, _, _, _, _) => ProduceLossless(s, e);
    case Connect(_, _, _, _, _) => ConnectLosslessIff(s, e);
    case _ =>
  }

  lemma {:induction false} TraceGrows(s: State, es: seq<Event>)
    ensures s.trace <= Run(s, es).trace
    decreases es
  {
    if es != [] {
      if Enabled(s, es[0]) {
        StepTrace(s, es[0]);
      }
      TraceGrows(Go(s, es[0]), es[1..]);
    }
  }

  lemma StepTrace(s: State, e: Event)
    requires Enabled(s, e)
    ensures s.trace <= Step(s, e).trace
  {
    if e.Produce? {
      RecordTrace(s, e);
    }
  }

  /** Queued or deliberately suppressed, with no other excuse. */
  ghost predicate Delivered(s: State) {
    forall k, i: nat | Owed(s, k, i) && Plain(s.conns, k.1) ::
      Decision(Queued, k.1, k.0, i) in s.trace || Decision(Withheld, k.1, k.0, i) in s.trace
  }

  /** While every backlog is within the limit and comes whole, every message is queued or suppressed on purpose. */
  lemma EveryMessageDelivered(store: Store, es: seq<Event>)
    requires NeverAhead(store) && ValidRun(Init(store), es) && ReadableRun(Init(store), es)
    ensures Delivered(Run(Init(store), es))
  {
    var s := Run(Init(store), es);
    RunLosslessIff(Init(store), es);
    EveryMessageDecided(store, es);
    forall k, i: nat | Owed(s, k, i) && Plain(s.conns, k.1)
      ensures Decision(Queued, k.1, k.0, i) in s.trace || Decision(Withheld, k.1, k.0, i) in s.trace
    {
      assert Covered(s.trace, LogOf(s.log, k.0), k.1, k.0, s.birth[k], |LogOf(s.log, k.0)|);
      assert Decided(s.trace, k.1, k.0, i);
    }
  }

  /** An event that gives no reason to suppress anything. */
  predicate Unsuppressed(e: Event) {
    match e
    case Produce(_, _, _, blocked, ignored, _) => !blocked && !ignored
    case Connect(dc, _, _, _, _) => dc.echoMessage
    case SetDetached(_, detached) => !detached
    case _ => true
  }

  ghost predicate AllQueued(s: State) {
    && s.detached == {}
    && (forall i | 0 <= i < |s.conns| :: s.conns[i].echoMessage)
    && (forall d | d in s.trace :: d.fate != Withheld)
  }

  lemma ForwardQueues(s: State, e: Event, pos: nat)
    requires e.Produce? && Unsuppressed(e) && AllQueued(s)
    ensures AllQueued(Forward(s, e, pos))
  {
    var s' := Forward(s, e, pos);
    forall i | 0 <= i < |s'.conns| ensures s'.conns[i].echoMessage {
      assert s'.conns[i] == Ping(s.conns[i], e, pos);
    }
    forall d | d in s'.trace ensures d.fate != Withheld {
      if d !in s.trace {
        var i :| 0 <= i < |s.conns| && d == LiveDecision(s, s.conns[i], e, pos);
        assert Forwards(s, s.conns[i], e);
      }
    }
  }

  lemma RecordQueues(s: State, e: Event)
    requires e.Produce? && AllQueued(s)
    ensures AllQueued(Record(s, e).0)
  {
  }

  lemma ProduceQueues(s: State, e: Event)
    requires e.Produce? && Unsuppressed(e) && AllQueued(s)
    ensures AllQueued(DoProduce(s, e))
  {
    var (s1, id) := Record(s, e);
    RecordQueues(s, e);
    if id.Some? {
      ForwardQueues(s1, e, id.value);
    }
  }

  lemma ConnectQueues(s: State, e: Event)
    requires e.Connect? && Unsuppressed(e) && AllQueued(s)
    ensures AllQueued(DoConnect(s, e))
  {
    var s' := DoConnect(s, e);
    forall d | d in s'.trace ensures d.fate != Withheld {
      if d !in s.trace {
        var t :| t in TargetsOf(s.cursors, e.conn.client) && d in ReplayDecisions(s, e, t);
      }
    }
  }

  lemma StepQueues(s: State, e: Event)
    requires Enabled(s, e) && Unsuppressed(e) && AllQueued(s)
    ensures AllQueued(Step(s, e))
  {
    match e
    case Produce(_, _, _, _, _, _) => ProduceQueues(s, e);
    case Connect(_, _, _, _, _) => ConnectQueues(s, e);
    case _ =>
  }

  lemma {:induction false} RunQueues(s: State, es: seq<Event>)
    requires ValidRun(s, es) && AllQueued(s) && forall e | e in es :: Unsuppressed(e)
    ensures AllQueued(Run(s, es))
    decreases es
  {
    if es != [] {
      StepQueues(s, es[0]);
      RunQueues(Go(s, es[0]), es[1..]);
    }
  }

  /** With nothing detached, ignored, blocked or an own echo, every message is really queued. */
  lemma EveryMessageQueued(store: Store, es: seq<Event>, k: Key, i: nat)
    requires NeverAhead(store) && ValidRun(Init(store), es) && ReadableRun(Init(store), es)
    requires forall e | e in es :: Unsuppressed(e)
    ensures var s := Run(Init(store), es);
            Owed(s, k, i) && Plain(s.conns, k.1) ==> Decision(Queued, k.1, k.0, i) in s.trace
  {
    EveryMessageDelivered(store, es);
    RunQueues(Init(store), es);
  }

  /**
   A message a backlog connection was confronted with can be acknowledged on it, and once it is, a later
   reconnection of that client replays nothing of the target.
   */
  lemma AcknowledgedNotReplayed(s: State, e: Event, i: nat, c: Event)
    requires Inv(s) && e.Produce? && e.msg.Chat() && e.outcome.Kept? && Recordable(e.target, e.msg)
    requires i < |s.conns| && !s.conns[i].chatHistory && !Skips(s.conns[i], e.blocked)
    requires c.Connect? && c.conn.client == s.conns[i].client
    ensures var s1, ack := DoProduce(s, e), Pong(i, e.target, |LogOf(s.log, e.target)|);
            && Enabled(s1, ack)
            && (e.target, c.conn.client) in DoPong(s1, ack).cursors
            && ReplayDecisions(DoDisconnect(DoPong(s1, ack), Disconnect(i)), c, e.target) == {}
  {
    var pos := |LogOf(s.log, e.target)|;
    ProducePings(s, e, i);
    NothingAfter(DoPong(DoProduce(s, e), Pong(i, e.target, pos)), c, e.target, i);
  }

  /** A kept chat message is logged last and PINGed for. */
  lemma ProducePings(s: State, e: Event, i: nat)
    requires Inv(s) && e.Produce? && e.msg.Chat() && e.outcome.Kept? && Recordable(e.target, e.msg)
    requires i < |s.conns| && !s.conns[i].chatHistory && !Skips(s.conns[i], e.blocked)
    ensures var s1, pos := DoProduce(s, e), |LogOf(s.log, e.target)|;
            && |s1.conns| == |s.conns| && s1.conns[i].client == s.conns[i].client
            && (e.target, pos) in s1.conns[i].pinged && |LogOf(s1.log, e.target)| == pos + 1
  {
    var pos := |LogOf(s.log, e.target)|;
    var s0 := Record(s, e).0;
    assert s0.conns == s.conns && |LogOf(s0.log, e.target)| == pos + 1;
    var s1 := DoProduce(s, e);
    assert s1 == Forward(s0, e, pos);
    assert s1.conns[i] == Ping(s.conns[i], e, pos);
  }

  /** A cursor past the whole log has nothing to replay, also after the connection has gone. */
  lemma NothingAfter(s: State, c: Event, t: Target, i: nat)
    requires c.Connect? && i < |s.conns|
    requires (t, c.conn.client) in s.cursors && s.cursors[(t, c.conn.client)] == |LogOf(s.log, t)|
    ensures ReplayDecisions(DoDisconnect(s, Disconnect(i)), c, t) == {}
  {
  }
}
